# Hostvra, verified

A Dafny model of the parts of Hostvra that are state machines, printers with matching parsers, or
all-or-nothing transactions. Each part that works by changing things step by step is a class or a
method with loops, proved against a specification function; the properties are proved of those
functions, for every input and every run. A `char` stands for one byte; trimming, splitting into
words and case folding are those of ASCII.

**SQL dumps** (`Sql*.dfy`). The importer's scanner has six exclusive mode flags, one byte of
lookahead, a changeable delimiter and error counters (`SqlScanner`). Proved of it: byte conservation,
the tally of outcomes, target enforcement, and the agreement with the second, smaller scanner that
only counts; `SqlLexing` says in terms of the input what comments, quotes, delimiters and the end of
the input do. The exporter's text is shown to be a sequence of closed units (`SqlTokens`,
`SqlDumpUnits`), so splitting a dump gives exactly the printed statements. The line rewriter is
proved closed: nothing it lets through selects or creates another database, and `SqlRedirect` proves
that qualified names are redirected to the target. Composed in `SqlPipeline`:
export, rewrite, split and execute runs the printed statements in order, under conditions on the
request alone, and a reader of names, values and INSERT statements finds in them exactly the rows the
tables held (`SqlReadBack`). `SqlNames` says what a line break in the database name does.

**Files with hand-written formats.** The crontab (`Crontab*`), the FTP user file (`Ftp*`) and php.ini
(`Ini*`): what is saved is loaded, so a file refines a list or a map over every run of operations.
`CrontabMeaning`, `FtpMeaning` and `IniMeaning` say in terms of the texts and lists themselves what is
accepted, printed, read and changed; `ArchiveMeaning` and `RestoreMeaning` do the same for archives.

**Serialized replace** (`Serialized`), **transactions with rollback** (`Migration`, `Archive`,
`Restore`), and **run-level machines** (`Alerts`, `AlertRuns`, `Releases`, `Retention`, `AgentTasks`).

**Files and links.** A file system maps paths to directories, files, links with a destination, and
special files (`FileTree`, lexical paths in `Paths`). `Links` resolves paths as the operating system
does and defines the operations that follow links; on paths without links they are those of
`FileTree`. `Copying` copies one node, `CopyWalk` a directory, node by node as the walk meets them.
Containment is an equivalence: it holds exactly when no link leads out (`RestoreLinks` for the restore).

The database, the disk, random ids, digests, clocks and map iteration order are parameters: replies
of the connection, points at which the disk fails, generated ids, a digest function, a walk order.
Every statement holds for all of them.

## Where the code and what is said of it differ

The model follows the code.

- The splitter takes `--` for a comment even without a following blank, drops the line break that
  ends a line comment, and neither executes nor counts a `USE` left without a delimiter at the end.
- `countStatements` honours a backslash inside backticks; the splitter does not
  (`SqlCounter.EscapedBacktickMiscounts`, `SqlCounter.CountsAgreeIff`).
- `ImportSQL` is documented for 128 MB; the code accepts 256 MB. The bound is a parameter here.
- The rewriter looks at a line longer than its buffer piece by piece, so a long line can get through
  unchanged (`SqlClosure.LongLinesEscape`, `SqlClosure.LongLineIsSafeIff`). A line break in a database
  name can lose the whole dump (`SqlNames.LineBreakInNameLosesEveryStatement`,
  `SqlNames.BrokenNameSplitsIff`).
- A crontab schedule may hold line breaks: they are accepted, and one behind the first visible byte
  loses or changes the saved job (`CrontabRoundTrip.FileRoundTripIff`). An identity comment written
  without the blank after `#` makes loading panic (`CrontabStore.LoadCrashesIff`).
- Adding a cron job or creating an FTP user drops the error of a failed read, so an unreadable file is
  overwritten by a list of one (`CrontabStore.AddLosesTheOthersIff`, `FtpRuns.CreateLosesTheOthersIff`);
  saving FTP users while the hashes cannot be read gives everybody the default password
  (`FtpRuns.BystanderKeepsHashIff`).
- An FTP name is validated without its outer blanks and line breaks and stored with them
  (`FtpStore.NameSurvivesIff`). A php.ini line led by a vertical tab is read but never rewritten
  (`IniLens.TabHidesIff`), and a written value with a semicolon in it grows with every further update
  (`IniLens.PutTwiceIff`).
- The staging commands pass bare domain names. A staging sub-domain holds the live domain, so the
  second pass matches again and every length it touches is wrong
  (`Serialized.StagingDomainIsUnsafe`); with the scheme in front it is safe
  (`Serialized.StagingAddressIsSafe`).
- An FTP password change is accepted for a name in any case, but takes effect only on the exact name
  (`FtpRuns.PasswordTakesEffectIff`).
- A failed symbolic link and a write that breaks off in nginx `ApplyVHost` are not undone, and a
  migration that is undone deletes staged vhosts the target already had
  (`Migration.FailedLinkRestoresIff`, `Migration.BrokenWriteRestoresIff`,
  `Migration.FailureRestoresIff`).
- Extraction refuses a link in the very place of a file but follows links on the way there, and the
  copy behind a restore follows them everywhere: both reach outside exactly when a link does
  (`Archive.ExtractionContainedIff`, `RestoreLinks.RestoreContainedIff`).
- A failed restore puts back exactly the targets made of directories and regular files; a rollback
  directory that is the target is deleted with it, and one further down is copied into itself until
  the disk fails (`Restore.RestoreArchive`).
- An alert rule's duration is stored and never looked at; disabling a rule leaves its incident firing
  for good (`AlertRuns.DisabledRuleKeepsFiring`).

## Model

| member | source | states |
|---|---|---|
| SqlScanner.ParseAndExecuteSQL | apps/agent/pkg/database/transfer.go:588-869 | with the six flags, the buffer and the delimiter updated byte by byte, the connection receives exactly the queries of the run of the scanner over the input, the unfinished one at its end included, after those it had received before, and the counters and error list are those of recording each reply in turn |
| SqlScanner.TallyCountsEveryQuery | apps/agent/pkg/database/transfer.go:785-797 | every executed query counts once, as success or failure, and the error list holds the first twenty failures |
| SqlScanner.OnlyTheTargetIsSelected | apps/agent/pkg/database/transfer.go:772-783 | nothing executed creates a database or schema, and everything executed that selects one is the quoted-target USE |
| SqlLexing.LineCommentDropped | apps/agent/pkg/database/transfer.go:616-704 | a comment of two dashes or a hash is dropped to the end of its line, line break included, and the scan goes on as if it were not there |
| SqlLexing.BlockCommentDropped | apps/agent/pkg/database/transfer.go:624-718 | a block comment is dropped |
| SqlLexing.ConditionalKept | apps/agent/pkg/database/transfer.go:635-718 | a conditional comment belongs to the statement |
| SqlLexing.QuotedKept | apps/agent/pkg/database/transfer.go:648-730 | a quoted string, with escapes and doubled single quotes, belongs to the statement, whatever delimiters, comment marks and keywords stand in it |
| SqlLexing.BacktickedKept | apps/agent/pkg/database/transfer.go:683-735 | so does a name in backticks |
| SqlLexing.DelimiterLine | apps/agent/pkg/database/transfer.go:737-760 | at the start of a statement, in any letter case, the keyword and a blank set the delimiter to the trimmed rest of the line |
| SqlLexing.StatementIsCut | apps/agent/pkg/database/transfer.go:762-836 | text without quotes and comments is cut at the first occurrence of the delimiter, whatever the delimiter |
| SqlLexing.ClassInWords | apps/agent/pkg/database/transfer.go:772-783 | a statement selects a database if and only if it starts with USE and a blank, and creates one if and only if it starts with CREATE DATABASE or CREATE SCHEMA, in any letter case |
| SqlLexing.ClassBehindOpener | apps/agent/pkg/database/transfer.go:772-783 | behind a comment opener a statement is classified as without it |
| SqlLexing.NothingForeignIsSent | apps/agent/pkg/database/transfer.go:772-866 | nothing sent selects or creates a database, openly or behind a comment opener, but the USE of the target |
| SqlLexing.LastStatementIsSent | apps/agent/pkg/database/transfer.go:838-866 | what the input leaves in the buffer is sent last, once, unless it is blank, selects or creates a database |
| SqlLexing.FinalDelimiterIff | apps/agent/pkg/database/transfer.go:588-869 | for input that ends outside quotes and comments under the usual delimiter, a semicolon at its end changes nothing that is executed if and only if the trailing text is not a USE |
| SqlConservation.Conservation | apps/agent/pkg/database/transfer.go:593-866 | the pieces of a run spell the input; each byte is either in exactly one raw statement with its delimiter, or in a dropped comment, or in a DELIMITER line with the blanks before it; the raw statements concatenated are the input without the dropped pieces |
| SqlConservation.EndingsAreTheRun | apps/agent/pkg/database/transfer.go:762-866 | the segments of the pieces are the statements cut by the run, in order, and then the unfinished buffer |
| SqlCounter.CountStatements | apps/agent/pkg/database/transfer.go:512-583 | the counting loop returns the count of the four-flag automaton, and zero for an unreadable file |
| SqlCounter.CounterMatchesSplitter | apps/agent/pkg/database/transfer.go:512-868 | for input that never meets the delimiter keyword at a statement start nor a backslash right before a backtick inside backticks, the count is the number of statements the splitter cuts, and at most one more is executed |
| SqlCounter.PlainDumpsQualify | apps/agent/pkg/database/transfer.go:737-760 | text without the keyword and without backslashes before backticks meets both conditions |
| SqlCounter.CountsAgreeIff | apps/agent/pkg/database/transfer.go:512-868 | for input without DELIMITER lines and without backticks behind its first escaped one, the count is the number of statements the splitter cuts if and only if no backtick is escaped or the splitter cuts nothing behind the first that is |
| SqlCounter.EscapedBacktickMiscounts | apps/agent/pkg/database/transfer.go:546-555 | behind a leading quoted identifier that ends in a backslash, with no backtick to come, the counter counts nothing, so it agrees with the splitter if and only if that cuts nothing there |
| SqlTokens.EscapeIsEach | apps/agent/pkg/database/transfer.go:168-173 | the four replacement passes in their order escape every byte of the value exactly once |
| SqlTokens.LiteralRoundTrip | apps/agent/pkg/database/transfer.go:166-179 | an escaped literal, read by MySQL's rules, ends at its own closing quote and decodes to the original value, whatever follows except a quote |
| SqlTokens.TokenRun | apps/agent/pkg/database/transfer.go:601-868 | scanning the text of well-formed units from any scanner state is walking the units: hits, buffer and mode agree |
| SqlExport.StreamExport | apps/agent/pkg/database/transfer.go:118-205 | the printing loops with their batch variables produce the dump text of the request, for every choice of tables, structure and data |
| SqlExport.PrintRows | apps/agent/pkg/database/transfer.go:142-203 | the row loop prints the scanned rows in order, an INSERT at every hundredth row and one for the remainder |
| SqlReadBack.IdentRoundTrip | apps/agent/pkg/database/schema.go:128-131 | a quoted name, read with a doubled backtick as one and a single one as the end, gives back the name and what follows it, for every name and whatever follows but a backtick |
| SqlReadBack.InsertRoundTrip | apps/agent/pkg/database/transfer.go:136-203 | a printed INSERT is read back as its table, its columns and its rows of values |
| SqlDumpUnits.ShowDump | apps/agent/pkg/database/transfer.go:118-205 | the dump text is the concatenation of its lexical units |
| SqlRoundTrip.DumpSplitsIntoItsStatements | apps/agent/pkg/database/transfer.go:118-868 | splitting a printed dump, for names without line breaks and lexically closed create statements, cuts exactly the printed statements in order and leaves only blanks |
| SqlRoundTrip.BatchesHoldTheRows | apps/agent/pkg/database/transfer.go:136-203 | the INSERT batches concatenated are the rows in order, none empty, none above one hundred, all but the last full |
| SqlSanitizer.SanitizeAndBufferSQL | apps/agent/pkg/database/transfer.go:378-483 | the rewriting loop writes header, rewritten lines and footer of the input cut at the limit, and returns the number of bytes written |
| SqlSanitizer.ExtractName | apps/agent/pkg/database/transfer.go:486-509 | the search for the database name returns the name between the first two backticks, or else the word after USE, DATABASE or SCHEMA past IF NOT EXISTS |
| SqlRedirect.CopyIsRedirected | apps/agent/pkg/database/transfer.go:378-483 | behind a line USE or CREATE DATABASE with a quoted name, or USE or CREATE DATABASE IF NOT EXISTS with a bare one, that tells a name other than the target: that line is replaced, a line with the name as a qualifier, quoted or bare, comes out with the quoted target in its place, the name in backticks is nowhere left as a qualifier, and a line without it is as it was |
| SqlRedirect.ToldName | apps/agent/pkg/database/transfer.go:486-509 | which name each such line tells |
| SqlRedirect.NoneLeft | apps/agent/pkg/database/transfer.go:449-460 | in a rewritten line the old name in backticks no longer occurs as a qualifier |
| SqlRedirect.LimitIs | apps/agent/pkg/database/transfer.go:388-388 | of an input above the limit one byte more than the limit is read, of any other all |
| SqlClosure.QualifyKeepsOrdinary | apps/agent/pkg/database/transfer.go:449-460 | redirecting qualified names cannot turn an ordinary line into one classified as USE or CREATE DATABASE |
| SqlClosure.SanitizedLinesAreSafe | apps/agent/pkg/database/transfer.go:378-483 | for lines that fit the buffer and a target without line breaks, no output line creates a database and every output line that selects one is exactly the quoted-target USE |
| SqlClosure.PiecesCopied | apps/agent/pkg/database/transfer.go:388-476 | a line of any length whose pieces look ordinary and name nothing redirected is written whole, however many pieces the buffer makes of it |
| SqlClosure.LongLineIsSafeIff | apps/agent/pkg/database/transfer.go:378-483 | such a line leaves the copy free of foreign database statements if and only if the whole line is ordinary or is the target USE itself |
| SqlClosure.LongLinesEscape | apps/agent/pkg/database/transfer.go:388-393 | for every buffer of more than eight bytes there is a CREATE DATABASE line that gets through, so the copy is not safe |
| SqlImport.DumpExecutesItsStatements | apps/agent/pkg/database/transfer.go:118-868 | importing a printed dump as it is executes exactly the printed statements, in order |
| SqlImport.UntouchedIsExecuted | apps/agent/pkg/database/transfer.go:378-869 | a dump whose lines the rewriter copies is executed on the target as the session settings, the target USE, the printed statements in order and the closing settings |
| SqlPipeline.DumpIsUntouched | apps/agent/pkg/database/transfer.go:118-476 | a request whose names, column lists and printed rows are shorter than the buffer, whose default-format cells hold no line break and whose create texts are copied lines prints a dump the rewriter leaves alone byte for byte |
| SqlPipeline.ExportThenImport | apps/agent/pkg/database/transfer.go:20-869 | exporting such a request, rewriting for a target and importing executes the session settings, the target USE, the printed statements in order and the closing settings, and nothing else |
| SqlReadBack.DumpHoldsTheData | apps/agent/pkg/database/transfer.go:118-205 | the statements of a dump put into each table exactly the rows read from it, in order, and drop and define exactly the tables whose structure is asked for |
| SqlReadBack.DataIs | apps/agent/pkg/database/transfer.go:136-165 | of rows that all scanned none is missing |
| SqlReadBack.ValuesAre | apps/agent/pkg/database/transfer.go:150-185 | and each keeps its values column by column |
| SqlReadBack.ImportHoldsTheData | apps/agent/pkg/database/transfer.go:20-869 | the same of what is executed after export, rewriting and import |
| SqlReadBack.SettingsAround | apps/agent/pkg/database/transfer.go:118-483 | in front of the tables the character set is set, the checks are off and the target is selected; behind them the checks are on again |
| SqlNames.BrokenNameSplitsIff | apps/agent/pkg/database/transfer.go:119-121 | for a database name with a line break whose text behind the first break cuts no statement and holds no DELIMITER line, the dump still splits into its statements if and only if that text ends inside a line comment with only blanks before it |
| SqlNames.LineBreakInNameLosesEveryStatement | apps/agent/pkg/database/transfer.go:119-121 | a name that is a line break lets its closing backtick swallow the dump: no statement is cut although three were printed |
| Ini.ParseDirectives | apps/agent/pkg/php/ini.go:75-94 | the line loop builds the map in which the last line read for a key wins, and stops at a line too long for the scanner |
| Ini.UpdateDirectives | apps/agent/pkg/php/ini.go:97-141 | the line loop rewrites exactly the lines held for an updated key, comments kept, and appends the keys not seen, for every order of the update map |
| IniMeaning.LineIsRead | apps/agent/pkg/php/ini.go:78-92 | key, sign, value and comment, with blanks around each and quotes around the value, give the key the bare value |
| IniMeaning.LineIsIgnored | apps/agent/pkg/php/ini.go:83-87 | empty lines, comments, section headings and lines without a sign give nothing |
| IniMeaning.LineIsRewritten | apps/agent/pkg/php/ini.go:104-124 | a line of an updated key, commented out or not, becomes key, sign, new value and the old comment |
| IniMeaning.LineIsKept | apps/agent/pkg/php/ini.go:104-125 | lines of other keys, section headings and lines without a sign stay byte for byte |
| IniMeaning.UpdateIs | apps/agent/pkg/php/ini.go:97-141 | an update keeps every line in its place and appends the keys without a line, each once, behind an empty line and the heading, and nothing else |
| IniMeaning.NothingToUpdate | apps/agent/pkg/php/ini.go:97-141 | without updates the text stays byte for byte |
| IniLens.ReadsBackIff | apps/agent/pkg/php/ini.go:78-92 | a written value is read back unchanged if and only if it has no semicolon, no blank or quote at either end and, with no comment behind it, no vertical tab at its end |
| IniLens.PutThenGet | apps/agent/pkg/php/ini.go:75-141 | after an update every updated key is present, and has its new value if and only if the line that decides it is a rewritten or appended one and the value is clean there, or a hiding line already said the same |
| IniLens.PutLeavesOthers | apps/agent/pkg/php/ini.go:75-141 | after an update every other key has its old value, or is still absent, whatever the file holds |
| IniLens.PutTwiceIff | apps/agent/pkg/php/ini.go:97-141 | applying an update twice gives the same text as once, whatever the file and the two walk orders, if and only if no value holds a semicolon |
| IniLens.TabHidesIff | apps/agent/pkg/php/ini.go:78-113 | an updated key is decided by an old line if and only if it has a line that is rewritten and a line led by a vertical tab gives it after the last such line |
| IniLens.VerticalTabHidesTheUpdate | apps/agent/pkg/php/ini.go:78-102 | a two-line file in which a line led by a vertical tab hides the new value of its key |
| Serialized.TokenStarts | apps/agent/pkg/wordpress/staging.go:62-68 | a well-formed serialized string is matched at its start with its own digits and value, whatever follows |
| Text.ReplaceFirst | apps/agent/pkg/wordpress/staging.go:71-78 | replacing copies what stands in front of the first occurrence, puts in the new text and goes on behind it |
| Serialized.NothingToReplace | apps/agent/pkg/wordpress/staging.go:57-59 | an empty old or new text, or equal ones, change nothing |
| Serialized.PlainTextIsReplaced | apps/agent/pkg/wordpress/staging.go:61-79 | text without serialized strings has every occurrence replaced |
| Serialized.StringIsReplaced | apps/agent/pkg/wordpress/staging.go:61-79 | a serialized string without the old text stays byte for byte, one with it gets its value replaced and its length written anew, and the rest is gone on with |
| Serialized.ReplacesTokenwise | apps/agent/pkg/wordpress/staging.go:56-79 | for texts that cannot touch a frame the two passes equal one pass that acts token by token, and the serialized strings of the result are those of the input, one for one |
| Serialized.LengthsStayRightIff | apps/agent/pkg/wordpress/staging.go:63-78 | right lengths stay right if and only if old and new text have the same length or no rewritten value still holds the old text |
| Serialized.SearchAndReplace | apps/agent/pkg/wordpress/staging.go:56-79 | when old and new text overlap neither frames nor each other, each value is replaced once with its own length, all lengths are right and no occurrence is left anywhere |
| Serialized.SubdomainBreaksLengths | apps/agent/pkg/wordpress/staging.go:77-78 | when the new text holds the old one, any serialized string that mentions the old text ends with a wrong length |
| Serialized.DigitsTouchTheFrame | apps/agent/pkg/wordpress/staging.go:77-78 | the frame condition cannot be dropped for digits: replacing a run of digits also rewrites the length of a string that does not hold it |
| Serialized.StagingAddressIsSafe | apps/agent/pkg/wordpress/staging.go:56-79 | replacing https://example.com by https://staging.example.com keeps every length right in every text |
| Serialized.StagingDomainIsUnsafe | apps/agent/pkg/wordpress/staging.go:103-103 | replacing example.com by staging.example.com breaks the length of every value it touches |
| Crontab.ParseCrontab | apps/agent/pkg/cron/manager.go:485-574 | the line loop returns the jobs of the lines in order, or fails on the first line whose identity comment cannot be cut off |
| Crontab.PrintJobs | apps/agent/pkg/cron/manager.go:433-453 | the string builder holds the header and one line for each job |
| Crontab.CronManager.SaveJobs | apps/agent/pkg/cron/manager.go:433-468 | the file becomes the printed jobs, or stays as it was when the write fails |
| Crontab.CronManager.AddJob | apps/agent/pkg/cron/manager.go:193-230 | checks in order, duplicate ids refused against the loaded file, or against nothing when it cannot be read, and on success the file is the printed list with the prepared job at its end |
| Crontab.CronManager.UpdateJob | apps/agent/pkg/cron/manager.go:233-271 | on success the first job with the id is replaced in the printed list; otherwise the file is unchanged |
| Crontab.CronManager.DeleteJob | apps/agent/pkg/cron/manager.go:274-299 | on success the file is the printed list without the jobs of that id |
| Crontab.CronManager.ToggleJob | apps/agent/pkg/cron/manager.go:302-329 | on success the first job with the id is switched in the printed list |
| CrontabRoundTrip.ScheduleShape | apps/agent/pkg/cron/manager.go:131-159 | an accepted schedule is one macro word, or five words that are no macro and hold no byte that could start a comment |
| CrontabMeaning.FieldIff | apps/agent/pkg/cron/manager.go:580-626 | a field of a star, a number, a step, a range or a list of numbers and steps is accepted if and only if its numbers lie within the bounds, ranges run upwards and steps are positive |
| CrontabMeaning.ScheduleIff | apps/agent/pkg/cron/manager.go:131-159 | five such fields are a schedule if and only if they fit minutes 0 to 59, hours 0 to 23, days 1 to 31, months 1 to 12 and weekdays 0 to 7, in this order |
| CrontabMeaning.MacroIff | apps/agent/pkg/cron/manager.go:132-135 | a single word is a schedule if and only if it is one of the five macros |
| CrontabMeaning.UserIs | apps/agent/pkg/cron/manager.go:201-204 | the user is the given name without outer blanks, and root for an empty one |
| CrontabMeaning.RefusalIff | apps/agent/pkg/cron/manager.go:193-206 | a job is refused for the first of schedule, blank command, dangerous command and user name that is wrong, and only then |
| CrontabMeaning.AnswerIff | apps/agent/pkg/cron/manager.go:193-329 | each answer of each operation, as an equivalence over the call, the file and the disk |
| CrontabMeaning.ChangeAt | apps/agent/pkg/cron/manager.go:193-329 | an addition appends one enabled job, an update and a toggle touch the first job with the id and leave all others in place, field by field |
| CrontabMeaning.DeleteAt | apps/agent/pkg/cron/manager.go:274-299 | a deletion takes out the jobs with the id, wherever they stand, and keeps the others in their order |
| CrontabMeaning.PrintedWords | apps/agent/pkg/cron/manager.go:440-448 | the line of an enabled job starts with the words of its schedule, its user and the words of its command, up to the comment; that of a disabled job is a comment |
| CrontabMeaning.ForeignLine | apps/agent/pkg/cron/manager.go:485-574 | a line written by hand is read as five words of schedule, the user and the command, under a new id |
| CrontabMeaning.NormalKeepsWords | apps/agent/pkg/cron/manager.go:440-574 | respacing keeps the words of schedule, command and description, and everything else of the job |
| CrontabMeaning.TidyIsNormal | apps/agent/pkg/cron/manager.go:440-574 | a job with single blanks and a tight description of one line is not changed by it at all |
| CrontabRoundTrip.LineRoundTrip | apps/agent/pkg/cron/manager.go:440-448 | a printed line, enabled or disabled, is read back as its job with schedule, command and description respaced |
| CrontabRoundTrip.FileRoundTripIff | apps/agent/pkg/cron/manager.go:433-574 | loading a printed file gives the accepted jobs in order, up to spacing, if and only if no schedule has a line break behind its first visible byte, nor any at all when its job is disabled |
| CrontabStore.NormalIsStable | apps/agent/pkg/cron/manager.go:485-574 | a respaced job is still accepted, and respacing it again changes nothing |
| CrontabStore.StoreRefinesList | apps/agent/pkg/cron/manager.go:193-448 | over every run of calls, with failing reads and writes, the loaded file is the plain list with the same operations, every answer is the one the list gives, and ids stay unique |
| CrontabStore.ToggleTwiceRestores | apps/agent/pkg/cron/manager.go:302-329 | toggling a job twice brings back the loaded list |
| CrontabStore.DeleteUndoesAdd | apps/agent/pkg/cron/manager.go:193-299 | deleting the job just added brings back the loaded list |
| CrontabStore.AddLosesTheOthersIff | apps/agent/pkg/cron/manager.go:218-228 | an addition under a new id loses the jobs there are if and only if the file cannot be read and can be written |
| CrontabStore.LoadCrashesIff | apps/agent/pkg/cron/manager.go:485-519 | loading a file crashes if and only if some line that is not skipped holds a recognised identity comment but not the text the cut looks for |
| CrontabStore.TightCommentCrashes | apps/agent/pkg/cron/manager.go:490-519 | an entry whose identity comment has no blank after the hash is such a line |
| Ftp.ParsePasswd | apps/agent/pkg/ftp/manager.go:468-514 | the line loop returns the users of the lines in order |
| Ftp.ReadHashes | apps/agent/pkg/ftp/manager.go:516-530 | the line loop builds the map in which the last hash for a name wins |
| Ftp.FTPManager.SaveUsers | apps/agent/pkg/ftp/manager.go:516-570 | the file becomes the printed users, each with its stored hash if that can be read, the new one for the exact target, or the default one; a failed write changes nothing |
| Ftp.FTPManager.CreateUser | apps/agent/pkg/ftp/manager.go:193-262 | refused for a name known in any case in the loaded file, which counts as empty when it cannot be read; otherwise the file is the printed list with the user added and its own hash |
| Ftp.FTPManager.ChangePassword | apps/agent/pkg/ftp/manager.go:278-319 | accepted for a name known in any case; the file is the printed list with the hash changed for the exact name |
| Ftp.FTPManager.UpdateUser | apps/agent/pkg/ftp/manager.go:322-380 | on success the first user with the name in any case has its directory and limits replaced in the printed list |
| Ftp.FTPManager.DeleteUser | apps/agent/pkg/ftp/manager.go:383-421 | on success every user with the name in any case is gone from the printed list |
| Ftp.FTPManager.ToggleUser | apps/agent/pkg/ftp/manager.go:424-451 | on success the first user with the name in any case is switched in the printed list |
| FtpStore.LineRoundTrip | apps/agent/pkg/ftp/manager.go:486-556 | a printed line is read back as its user and gives its hash, enabled or disabled |
| FtpMeaning.LineFields | apps/agent/pkg/ftp/manager.go:545-556 | the colon fields of a printed line in the order the server reads them: name, hash, ids, home, upload, download, quota; the line of a disabled user is a comment |
| FtpMeaning.ForeignLine | apps/agent/pkg/ftp/manager.go:468-514 | any line of colon fields: fewer than six are no user, missing limits and malformed numbers count as zero |
| FtpMeaning.AnswerIff | apps/agent/pkg/ftp/manager.go:127-451 | each answer of each operation, as an equivalence over the call, the names in the file and the disk |
| FtpMeaning.ChangeAt | apps/agent/pkg/ftp/manager.go:193-451 | a creation appends one enabled user, an update and a toggle touch the first user with the name in any case and leave all others in place, field by field |
| FtpMeaning.DeleteAt | apps/agent/pkg/ftp/manager.go:383-421 | a deletion takes out the users with the name, wherever they stand, and keeps the others in their order |
| FtpMeaning.SavedAccounts | apps/agent/pkg/ftp/manager.go:516-570 | every save writes the changed users in order; a creation and a password change give the digest of the password to that very name, everyone else gets the stored hash or, without one, the default |
| FtpStore.NameSurvivesIff | apps/agent/pkg/ftp/manager.go:468-556 | a user with an accepted name, saved and loaded, comes back if and only if the name has no leading blank and no line break |
| FtpStore.FileRoundTripIff | apps/agent/pkg/ftp/manager.go:468-570 | loading a printed file gives the accepted users if and only if no name has a leading blank or line break and no home holds a colon or line break |
| FtpStore.FileRoundTrip | apps/agent/pkg/ftp/manager.go:468-570 | then the hash map is the printed one as well |
| FtpRuns.StoreRefinesAccounts | apps/agent/pkg/ftp/manager.go:193-570 | over every run, with failing reads and writes, the file holds the list of accounts with the same operations applied, hashes included, and every answer is the list's |
| FtpRuns.HashFrame | apps/agent/pkg/ftp/manager.go:193-570 | over every run on a readable file an account neither deleted nor given a password under its exact name keeps its hash, through any disabling and enabling |
| FtpRuns.StoredHashFrame | apps/agent/pkg/ftp/manager.go:516-570 | the same of the hash stored in the file |
| FtpRuns.BystanderKeepsHashIff | apps/agent/pkg/ftp/manager.go:516-556 | an operation that is carried out keeps the hash of an account it is not about if and only if the stored hashes could be read |
| FtpRuns.CreateLosesTheOthersIff | apps/agent/pkg/ftp/manager.go:207-259 | creating a user under a new name loses the other users if and only if the file cannot be read and can be written |
| FtpRuns.PasswordTakesEffectIff | apps/agent/pkg/ftp/manager.go:278-319 | a successful password change reaches an account if and only if the names agree byte for byte |
| FtpRuns.OtherCaseChangesNothing | apps/agent/pkg/ftp/manager.go:293-302 | when the name is known only in another case the change is reported as done and changes no account |
| Migration.Provider.ApplyVHost | apps/agent/pkg/webserver/nginx_provider.go:559-599 | the new files, links and answer for each way the opening, the writing, the link or the test can fail |
| Migration.Provider.RemoveVHost | apps/agent/pkg/webserver/nginx_provider.go:601-612 | file and link of the domain are gone, all else stays |
| Migration.FailedTestRestoresIff | apps/agent/pkg/webserver/nginx_provider.go:566-592 | a failed test restores the server if and only if the domain was absent, or present with content and enabled |
| Migration.FailedLinkRestoresIff | apps/agent/pkg/webserver/nginx_provider.go:574-578 | a failed link restores the server only if the same content was already there and not enabled |
| Migration.BrokenWriteRestoresIff | apps/agent/pkg/webserver/nginx_provider.go:570-572 | a write that breaks off restores the server only if the file already held what it left |
| Migration.ExecuteMigration | apps/agent/pkg/webserver/migration.go:44-156 | the ordered steps with their undo loops leave both servers as the migration function says, for every environment and walk order |
| Migration.MigratedIff | apps/agent/pkg/webserver/migration.go:44-156 | a migration succeeds if and only if the target is installed and licensed, every configuration is generated, no domain meets a fault, the target validates, a running source stops, the target starts and is healthy |
| Migration.FailureIsTheFirst | apps/agent/pkg/webserver/migration.go:53-147 | each failure is named by the first of these that does not hold, a failed staging by the first domain of the walk with a fault |
| Migration.GeneratedIs | apps/agent/pkg/webserver/migration.go:71-80 | there is one configuration for each domain, that of its last website, and none at all when one website has none |
| Migration.WhoRuns | apps/agent/pkg/webserver/migration.go:99-155 | which of the two servers runs at the end, by the outcome |
| Migration.SuccessMovesEverything | apps/agent/pkg/webserver/migration.go:83-155 | success means: source stopped with its files untouched, target running, every requested domain written and enabled, other domains untouched |
| Migration.FailureRestores | apps/agent/pkg/webserver/migration.go:53-147 | failure from a stopped target holding none of the domains restores both servers, except exactly when a write broke off or a link failed, and then that one file remains with what was written |
| Migration.FailureRestoresIff | apps/agent/pkg/webserver/migration.go:66-147 | wherever a migration fails and whatever the target held, its sites are as before if and only if it held none of the domains staged so far and the application that failed, if one did, found what that failure leaves alone |
| Migration.LateFailureRestoresIff | apps/agent/pkg/webserver/migration.go:91-147 | a failure after staging restores the target's sites if and only if it held none of the domains before |
| Migration.NeverBothRunning | apps/agent/pkg/webserver/migration.go:99-147 | both servers run at the end if and only if the health check failed, the target could not be stopped, and a source that had been running was started again |
| Paths.PartsShape | apps/agent/pkg/backup/manager.go:1594-1608 | a cleaned path first climbs and then descends through ordinary components, and never climbs from the root |
| Paths.FirstComponent | apps/agent/pkg/backup/manager.go:1594-1608 | a text without slashes is cleaned to nothing if it is empty or a dot, and to itself otherwise |
| Paths.NextComponent | apps/agent/pkg/backup/manager.go:1594-1608 | one more component: an ordinary one goes deeper, an empty one and a dot stay, two dots go back, and up from the root is the root |
| Paths.JoinPlain | apps/agent/pkg/backup/manager.go:1602-1604 | joining an ordinary relative name to a clean directory appends a slash and the name |
| Archive.ArchiveDirectory | apps/agent/pkg/backup/manager.go:1413-1462 | the walk emits an entry for each directory, file and link, passes over sockets and pipes, refuses paths holding two dots, and counts the regular files |
| ArchiveMeaning.PackedIff | apps/agent/pkg/backup/manager.go:1413-1462 | a directory is packed if and only if no packed path holds two dots; then there is one entry for each path in the order of the walk, with its name, kind and content |
| ArchiveMeaning.VisibleIs | apps/agent/pkg/backup/manager.go:1420-1428 | the packed paths are all of the walk but the special files |
| ArchiveMeaning.FilesAreCounted | apps/agent/pkg/backup/manager.go:1413-1462 | the count is the number of regular files below the top |
| Archive.ExtractTarGz | apps/agent/pkg/backup/manager.go:1562-1642 | the entry loop leaves the tree of extracting the entries in order up to the first that fails, links on the way followed and one in the very place refused |
| ArchiveMeaning.ExtractedUpTo | apps/agent/pkg/backup/manager.go:1562-1642 | there is a first entry that fails, or all succeed; the tree is that of the entries up to it |
| ArchiveMeaning.FileExtracted | apps/agent/pkg/backup/manager.go:1614-1640 | a file is written into its directory, over another file if there is one, and refused over a directory or a link |
| ArchiveMeaning.OtherExtracted | apps/agent/pkg/backup/manager.go:1610-1616 | a directory that is there stays as it is, a file in its place is an error, and other kinds are passed over |
| ArchiveMeaning.ResolveIff | apps/agent/pkg/backup/manager.go:1593-1608 | an entry is accepted if and only if it is no link, its name is relative, no component of the cleaned name holds a zero byte, and these components lead from the destination to or below it; it goes where they lead |
| ArchiveMeaning.PlainIsAccepted | apps/agent/pkg/backup/manager.go:1593-1608 | a name cleaned to ordinary components is accepted however it is spelled |
| Archive.ResolveContained | apps/agent/pkg/backup/manager.go:1593-1608 | every accepted entry lies at or below the destination, component by component |
| Archive.ResolveNeverClimbs | apps/agent/pkg/backup/manager.go:1593-1608 | below a destination that does not end in two dots, the accepted path only descends |
| Archive.ExtractionContained | apps/agent/pkg/backup/manager.go:1562-1642 | below a destination whose links all stay inside, whatever the entries and even when extraction fails half-way, nothing outside changes and the links still stay inside |
| Archive.ExtractionContainedIff | apps/agent/pkg/backup/manager.go:1562-1642 | no archive can change anything outside the destination if and only if no path below it leads to a directory outside it |
| Archive.LinkLetsOut | apps/agent/pkg/backup/manager.go:1614-1640 | with a link below the destination to a directory elsewhere, one plain entry behind the link is extracted there |
| Archive.ArchiveRoundTrip | apps/agent/pkg/backup/manager.go:1396-1642 | archiving a tree without links and extracting into an empty directory reproduces every path with its content and nothing else, for every walk order |
| Links.MadeStraight | apps/agent/internal/backup/manager.go:602-609 | making directories along a path without links is making them in their very places |
| Links.AimKept | apps/agent/pkg/backup/manager.go:1612-1640 | however directories and files are added to a tree, every path leads to the place it led to before |
| Copying.CopySettles | apps/agent/internal/backup/manager.go:602-627 | a copy that succeeds has put its node exactly where its path leads through the links, made the missing directories above that place, and changed nothing else |
| CopyWalk.FileSystem.CopyDirectory | apps/agent/internal/backup/manager.go:589-630 | nothing is lost; nothing outside a closed target changes; without links at the target success means the source laid over it, and it succeeds when nothing is in the way; where links lead elsewhere than into the source, success means every source at the place its path leads to and nothing else changed; a copy into a place further down in its own source never succeeds |
| FileTree.CopyOverlays | apps/agent/internal/backup/manager.go:589-630 | the overlaid tree holds the source's node wherever the source has one, and the old node elsewhere |
| Restore.VerifyArchive | apps/agent/internal/backup/manager.go:313-360 | valid exactly when every name is relative and is cleaned to ordinary components, with the number of regular files |
| Restore.SafeIff | apps/agent/internal/backup/manager.go:344-349 | the test on the cleaned text rejects a name if and only if it is absolute or one of its cleaned components is no ordinary one |
| RestoreMeaning.CountIs | apps/agent/internal/backup/manager.go:350-356 | the number of files is the number of entries that are regular files |
| RestoreMeaning.ArchiveTreeIff | apps/agent/internal/backup/manager.go:409-464 | an archive can be staged if and only if it asks for no path both as a file and as a directory; then staging gives exactly the directories and files asked for, each file with the content of its last entry |
| Restore.SafeNameJoins | apps/agent/internal/backup/manager.go:421-428 | an accepted name joined to the staging directory extends it by ordinary components |
| Restore.StageEntries | apps/agent/internal/backup/manager.go:409-464 | on success the fresh staging directory holds exactly the tree the archive stands for; nothing outside it changes |
| Restore.RestoreArchive | apps/agent/internal/backup/manager.go:363-480 | an unreadable archive or one with a harmful name is refused before anything is touched; a refusal leaves the target, a failure after the snapshot leaves it as it was if and only if it held directories and regular files only; success lays the archive's tree over it; staging is always removed; nothing else changes if no path below the target leads to a place outside it that can be written; where links lead out, success means everything at the place its path leads to; a rollback directory that is the target is lost with it, one further down is never filled; without faults or conflicts it succeeds |
| Restore.BackAgain | apps/agent/internal/backup/manager.go:388-394 | removing the target and copying the snapshot back gives the old tree |
| RestoreLinks.FencedIff | apps/agent/internal/backup/manager.go:388-464 | with fresh names no link knows, that condition is the same as: no path below the target can be opened for writing outside it once the rollback directory is there |
| RestoreLinks.RestoreContainedIff | apps/agent/internal/backup/manager.go:363-480 | under it every archive may be restored and no run, whatever the faults and the walk order, changes anything outside; without it there is an archive of one plain file that every run without faults restores, changing something outside |
| RestoreLinks.RestoreFollowsLinks | apps/agent/internal/backup/manager.go:602-627 | over a target with a link to a directory elsewhere, every run without faults writes the plain file behind the link there |
| Alerts.Engine.EvaluateMetric | apps/api/internal/alerts/engine.go:242-329 | for every order of the rules: each breached rule without a firing incident opens exactly one, each rule back to normal resolves its firing incident, and every other incident is unchanged |
| Alerts.RuleEffect | apps/api/internal/alerts/engine.go:242-329 | an enabled rule on processor, memory or disk with the value of that metric: at or above the threshold and nothing firing, exactly one incident is opened with all its fields; something firing stays; below it what fires is resolved and keeps its other fields |
| Alerts.NothingElseChanges | apps/api/internal/alerts/engine.go:246-270 | disabled rules, rules of other types and other servers open nothing and change nothing |
| Alerts.Engine.FindActiveIncident | apps/api/internal/alerts/engine.go:331-338 | returns a firing incident of the server and rule, or none when there is none |
| Alerts.Engine.AddRule | apps/api/internal/alerts/engine.go:112-121 | stores the rule under its id, a new one if it has none, and touches no incident |
| Alerts.EvaluationKeepsOne | apps/api/internal/alerts/engine.go:242-338 | an evaluation never leaves two firing incidents for one server and rule |
| AlertRuns.AlwaysOneFiring | apps/api/internal/alerts/engine.go:242-338 | in every reachable state each server and rule has at most one firing incident |
| AlertRuns.ResolvedForever | apps/api/internal/alerts/engine.go:306-324 | over every run a resolved incident never changes and no incident is dropped |
| AlertRuns.IncidentsCountCrossings | apps/api/internal/alerts/engine.go:242-338 | for a rule kept enabled and unchanged the incidents of a server are as many as the upward crossings of its threshold, and one fires exactly when the last value is at or above it |
| AlertRuns.DisabledRuleKeepsFiring | apps/api/internal/alerts/engine.go:248-251 | while a rule is disabled no run changes its incidents |
| Releases.ListingIsChronological | apps/agent/pkg/gitcicd/manager.go:287-287 | for stamps of equal length the sorted listing order is the numeric, hence chronological, order |
| Releases.Manager.PruneReleases | apps/agent/pkg/gitcicd/manager.go:271-292 | exactly the releases with fewer than the kept number after them remain |
| Releases.Manager.DeployRelease | apps/agent/pkg/gitcicd/manager.go:120-247 | a failed deployment leaves its directory behind and the link as it was; a successful one moves the link to its release and keeps the newest releases, five if no positive number is configured |
| Releases.Manager.RollbackRelease | apps/agent/pkg/gitcicd/manager.go:250-268 | the link moves exactly when the release exists and the link can be made |
| Releases.DeployKeepsNewest | apps/agent/pkg/gitcicd/manager.go:222-226 | after a success exactly min(n, keep) releases remain and every one removed sorts before every one kept |
| Releases.DeployStaysLiveIff | apps/agent/pkg/gitcicd/manager.go:211-226 | the link of a deployment survives its own pruning if and only if fewer than keep releases sort after it |
| Releases.AlwaysLive | apps/agent/pkg/gitcicd/manager.go:120-292 | over every run of deployments, failures and rollbacks with ids that never go back, the link names an existing release |
| Retention.ExchangeSort | apps/agent/pkg/backup/manager.go:802-808 | the nested exchange loops leave a permutation of the records, newest first |
| Retention.Manager.DeleteBackup | apps/agent/pkg/backup/manager.go:746-779 | record and archive file of the id are gone, everything else stays |
| Retention.Manager.PruneOldBackups | apps/agent/pkg/backup/manager.go:782-817 | with a positive number exactly min(keep, n) records of the target and scope, an empty one standing for all, remain, none older than one removed; no other record is touched; the files gone are those of the removed records; otherwise nothing changes |
| AgentTasks.Manager.Enqueue | apps/api/internal/agenttask/manager.go:44-62 | a new id maps to a pending entry, all others unchanged |
| AgentTasks.Manager.FetchPendingForServer | apps/api/internal/agenttask/manager.go:64-77 | returns exactly the pending ids of the server, each once, marks exactly those delivered and changes nothing else of any task |
| AgentTasks.Manager.Complete | apps/api/internal/agenttask/manager.go:79-97 | sets the reported status, exit code and output of a known id, whatever its status |
| AgentTasks.FetchDrains | apps/api/internal/agenttask/manager.go:64-77 | after a fetch no task of its server is pending |
| AgentTasks.NeverPendingAgain | apps/api/internal/agenttask/manager.go:64-97 | over every run with final reports only, what is no longer pending never is again, and servers never change |
| AgentTasks.DeliveredAtMostOnce | apps/api/internal/agenttask/manager.go:64-97 | over every such run each id is in at most one fetch result, and that fetch is of its own server |
| AgentTasks.NextFetchDelivers | apps/api/internal/agenttask/manager.go:44-77 | what is enqueued is in the next fetch of its server, unless a report comes first |
| AgentTasks.RedeliveredIff | apps/api/internal/agenttask/manager.go:79-97 | after a report the next fetch hands the id out again if and only if the report said pending |

## Left out

- Process execution, the native MySQL command line, the database itself, HTTP, S3, certificates and
  services: they appear only as replies or as points of failure.
- CSV and JSON export, `ImportSQL`'s session set-up and table count, context cancellation, read and
  write errors of the streams, and the time and row-scan formatting of cells (a cell comes as text).
- DumpSplitsIntoItsStatements: assumes database names and table names without line breaks and create
  statements that are lexically closed. Which line breaks in a database name do harm is said by
  BrokenNameSplitsIff, for names that cut no statement and hold no DELIMITER line behind the first break
  (and, should they leave a block comment open, dumps without an asterisk further on).
- ExportThenImport: assumes printed lines shorter than the rewriter's buffer, no line break in columns and
  default-format cells, and create texts made of lines it copies.
- ImportHoldsTheData: assumes that cells in their default format are not empty, hold no comma and no closing
  parenthesis and do not spell NULL, and that create statements begin with CREATE and a blank; a time is
  read as its text.
- CopyIsRedirected: for names of letters, digits and underscores that differ from the target in any case, one
  qualified name to a line, and lines that fit the buffer.
- CounterMatchesSplitter: assumes that no statement starts with the delimiter keyword and that no
  backslash stands right before a backtick inside backticks. The second is sufficient, and exact for input
  with no backtick behind the first escaped one that has a delimiter for the splitter to cut at
  (CountsAgreeIff). What further backticks behind it do to the two counts is not described.
- Non-ASCII white space and case folding; bytes above 127 are ordinary bytes.
- The destructive-command patterns of cron and the home-directory checks of FTP: their verdict is a
  parameter. Job run results (`lastRuns`) and the second copy of the crontab are not modelled.
- StoreRefinesList: for schedules no line break cuts off (exactly those that are read back,
  FileRoundTripIff), commands without line breaks and identity mark, and ids that are words.
- StoreRefinesAccounts: for names and homes that fit the format (exactly those that are read back,
  FileRoundTripIff); the pure-pw command path is left out.
- PutThenGet: assumes lines below the scanner's limit of 65536 bytes.
- ReplacesTokenwise: assumes that old and new text hold no double quote and cannot touch a frame
  `s:digits:` or the closing semicolon (the predicate FrameFree, a check on the two texts alone; it is
  sufficient, and cannot be dropped for digits, see DigitsTouchTheFrame).
- ExecuteMigration: source and target are different servers; web servers other than nginx and the
  licence details are left out. Links are recreated after a failed test without failing again.
- tar and gzip formats, file modes, permissions and checksums; hard links. The file written beside its
  place during extraction is not visible; a special file cannot be opened for writing.
- ArchiveDirectory: special files are sockets and named pipes, which it passes over; device nodes, which the
  code packs by their headers, are in no tree here. Extraction passes over entries of such other kinds.
- ExtractionContainedIff: for a destination with a name of its own (not the root, the working directory or
  one that ends by climbing) given by its real path, and names without backslashes, which no entry can have.
- RestoreArchive: site paths are given with the links above them resolved, and the names made from clock and
  random numbers are new. Promotion is taken to end by itself only where no link of the target leads the
  archive's tree into the staging directory. The copy back after a failure does not fail.
- RestoreContainedIff: for a target that is a directory or a link to one, a rollback directory outside it
  that is there or can be made, and names without backslashes, which no entry can have.
- CopyDirectory: nodes are met in any order that starts at the top. A disk that never fails is allowed only
  where the copy is sure to end.
- Alert incidents are values in a map, not shared objects, so callers holding an incident do not see it
  resolved; notifications, channels and the database copy of incidents are left out.
- Release ids are plain directory names; a rollback to an empty id or to `.` is not modelled.
- Floating-point values of metrics are real numbers.
- Concurrency between lock releases; random ids are only assumed new.
- `packAccount` and `restoreAccount`, remote deletion under a prefix, `executeSQLScript`, and the
  straight-line configuration transactions of php and nginx.
- Templates, installers, package managers, malware signatures, telemetry, the command line and the web
  interface.
