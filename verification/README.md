# PosPay in Dafny

A model of the parts of PosPay whose correctness hangs on loops, running totals, long runs and
interleavings, with proofs of what those parts are for. `dafny verify dfyconfig.toml` checks all of it.

| part | modules | main results |
|---|---|---|
| X9.37 cash letters | `PythonText`, `Calendar`, `X937Records`, `X937Parser`, `X937Scan`, `X937Alteration`, `X937Totals`, `X937Printer`, `X937Skipped`, `X937Errors`, `X937RoundTrip` | the scanner accepts exactly the files whose control totals agree; printing and parsing is a round trip, with skipped records anywhere; totals are conserved across three levels; exactly which cuts and which changed amounts are caught; an error names the first bad record |
| NACHA files | `Nacha`, `NachaTotals`, `NachaAlteration`, `NachaChanges`, `NachaPrinter`, `NachaTrimmed`, `NachaErrors`, `NachaRoundTrip` | the same for batches and files, with the hash modulo 10^10; a round trip; a trimmed file parses as the untrimmed one; exactly when a lost or changed entry is caught, and a filler line |
| audit chain | `AuditChain`, `AuditTamper`, `AuditEdits` | a table verifies if and only if it is the beginning of a recorded log; exactly which edits go unseen; an untouched log verifies if and only if the clock was strict |
| sessions | `Sessions` | a logged-out session stays out over every run; exactly when a pruned revocation lets one back in |
| sign-in lockout | `Lockout` | a bound on compared passwords over any run, and that it is reached |
| model slots and provenance | `ModelRegistry`, `ModelProvenance`, `ModelEligibility`, `ModelLeaks` | one active model a slot over every run; no scoring gap; what each model learned from, decision by decision; exactly when a bank's withdrawn data stays unnoticed, and a check that never misses it |
| exception decisions | `Decisions`, `DecisionRules`, `DecisionServices` | one decision for exactly the paid or returned, dual control, agreeing ACH returns, over every interleaving of five services |
| backing out an upload | `Reversal` | a fold of atomic groups; marks tell the truth; nothing is backed out twice; the exceptions stay consistent |
| bulk rows and scope | `BulkRows`, `ScopedRows` | a failing row leaves no trace; the same file again adds nothing; for every table of rows of accounts, exactly when reads by own columns equal the join |
| auto-import dropbox | `Dropbox`, `DropboxImports`, `DropboxFiles` | over overlapping and failing scans, exactly when a content can be imported twice, when a file is lost, and when one is processed that was never imported |

Imperative code is a method proved against a function on its inputs or its old state; the laws are
lemmas about that function. A service whose methods change rows is a class; its state at one moment
is the value `At()`, and `Run` applies any sequence of steps to it. Fields and sets marked "history"
in the comments stand for facts that no program variable holds.

## Where the code and its documentation part

- `x937.py:30-35` says that a truncated file is rejected. A file cut between two records is accepted,
  and only a cut inside a record is rejected (`X937Alteration.CutIsAcceptedIff`).
- `x937.py:64` says that a check has its own cash letter's date. The last check of a letter gets the
  date of the next letter that holds one; all dates are right exactly under `X937RoundTrip.DatesKept`.
- `nacha.py:62,173`: a routing number that is not a number escapes as a bare `ValueError`, not as a
  `NachaParseError`; the model has it as an error of its own.
- `nacha.py:195-196` takes any line that begins with a 9 for a file control record, also the lines of
  nines that fill up the last block of an ACH file; a file that ends in them is rejected
  (`NachaChanges.FillerIsCaught`).
- `audit_log_service.py:20-21` says that no two entries serialize alike. That needs the action, summary and
  resource type to hold no separator, which nothing checks; with one, an edit goes unseen
  (`AuditEdits.EditGoesUnseenIff`).
- `audit_log_service.py:152-155`: the bank's id is not signed, so a table that verifies is the
  beginning of some bank's log under the one key; with its first entry in place it is its own bank's.
  Two entries with one timestamp can make an untouched log fail, in an order that the query may return
  (`AuditTamper.UntouchedVerifiesIffClockStrict`).
- `check_image.py:25-31` says that an image has the customer of its account or paid item. An image uploaded
  without a paid item has its uploader's and belongs to no account; reads by own columns return it, and a join
  cannot (`ScopedRows.ReadsEqualJoinIff`, `ScopedRows.LooseImageIsRead`).
- `session_service.py:49-53` says that a revocation outlives every token of its session. It does
  unless the longest timeout was lowered after the sign-in; exactly when is `Sessions.LogoutHoldsIff`.
- `user_service.py:361-368` says that the password form cannot be used for guessing because it counts
  toward the same lockout. It counts, but does not look at the lock; the bound is one on the sign-in form
  (`Lockout.CurrentPasswordIsAlwaysCompared`).
- `tasks.py:64-71` compares a bank's leaving with the time the shared model was activated. Activating
  a model again, or storing one after a bank left while it was trained, hides the bank
  (`ModelLeaks.LeaksAreDetectedIff`, `ModelLeaks.ReactivationHidesLeak`, `ModelLeaks.LeavingDuringTrainingHidesLeak`).
  Compared with the time the data was read, it would miss nothing (`ModelLeaks.ReadTimeCheckMissesNothing`).
- `exception_item.py:29-32` has a withdrawn exception as one that was not decided. A sweep that selected it
  before decides it all the same (`Decisions.WithdrawnLeavesIff`, `Decisions.StaleSweepDecidesWithdrawn`).
- `dropbox_import_service.py:198-211` records a file before importing it. A scan that ends in between
  leaves a file that is taken for a duplicate for ever (`DropboxFiles.InterruptedIsNeverImported`). Two
  scans that hold one content at once can import it twice (`DropboxImports.ImportedTwiceIff`,
  `DropboxImports.TwoScansImportTwice`), and two at work on one path can move a file to processed that
  neither has read (`DropboxFiles.ProcessedUningestedIff`).

## Model

| member | source | states |
|---|---|---|
| PythonText.FieldRoundTrip | src/pospay/bulk_import/x937.py:204-206 | a field without outer blanks, padded to its width, decodes and strips back to itself |
| PythonText.DigitsRoundTrip | src/pospay/bulk_import/x937.py:132-137 | a number printed in a field it fits reads back as itself |
| PythonText.StripMeans | src/pospay/bulk_import/x937.py:204-206 | stripping cuts out the stretch between the first and the last character that is none of the ten ASCII space characters |
| PythonText.SignedReads | src/pospay/bulk_import/x937.py:132-137 | white space around a number and a sign in front of it are read as in Python |
| PythonText.OnlyIntegersRead | src/pospay/bulk_import/x937.py:132-137 | nothing else reads as a number |
| PythonText.BlankCountsAsZero | src/pospay/bulk_import/x937.py:132-137 | a blank field counts as zero, any other must be a number |
| PythonText.DigitRunReads | src/pospay/bulk_import/x937.py:132-137 | a run of digits may hold single underscores between them, and nothing else |
| PythonText.UnderscoreIsPassedOver | src/pospay/bulk_import/x937.py:132-137 | an underscore does not change the number |
| Calendar.DatesAre | src/pospay/bulk_import/x937.py:119-123 | which dates exist, month by month and in leap years |
| X937Records.HeadNeedsAllBytes | src/pospay/bulk_import/x937.py:190-302 | a record that is cut short, at whatever byte, can no longer be read |
| X937Records.ScanAppend | src/pospay/bulk_import/x937.py:190-302 | scanning distributes over concatenation at a record boundary |
| X937Records.ScanCut | src/pospay/bulk_import/x937.py:190-302 | a readable file may be cut before any record, and both parts read as those records |
| X937Parser.ParseExact | src/pospay/bulk_import/x937.py:148-305 | a file is accepted exactly when it splits into records and every Type 70, 90 and 99 equals the checks since the last Type 20, the last Type 10 and the start; the value is each check with the images that follow it and the date in force when it is flushed |
| X937Parser.UnreadableDateIsToday | src/pospay/bulk_import/x937.py:119-123 | behind headers without a readable business date every item is dated today |
| X937Skipped.SkippedReads | src/pospay/bulk_import/x937.py:116 | a record of type 01, 26, 27, 28, 31, 32, 33 or 34 is passed over whole, whatever its other 78 bytes and what follows |
| X937Skipped.UnlistedIsRejected | src/pospay/bulk_import/x937.py:301-302 | any two bytes that are neither one of these eight nor one of the eight types read are rejected as unrecognized |
| X937Skipped.InsertionChangesNothing | src/pospay/bulk_import/x937.py:296-299 | putting a skipped record at a record boundary of any file, readable or not, changes neither its acceptance nor its items |
| X937Errors.ErrorNamesFirstBadRecord | src/pospay/bulk_import/x937.py:190-302 | a rejected file was read without fault, controls included, up to the byte the error names, and the record there cannot be read or is a control that declares another count, or another amount |
| X937Errors.UnreadableCheck | src/pospay/bulk_import/x937.py:199-213 | a check is refused only if cut short or without a readable amount |
| X937Errors.UnreadableControl | src/pospay/bulk_import/x937.py:132-145 | a control only if cut short or without a readable count or amount |
| X937Errors.UnreadableImage | src/pospay/bulk_import/x937.py:275-291 | an image only if cut short, without a readable length, or too long for the file |
| X937Errors.UnreadableOther | src/pospay/bulk_import/x937.py:269-299 | any other known record only if cut short |
| X937Scan.SkipSeparatorsAt | src/pospay/bulk_import/x937.py:126-129 | the cursor stops at the first byte that is not CR or LF, or at the end |
| X937Records.LineEndsAreSkipped | src/pospay/bulk_import/x937.py:126-129 | what is passed over between records are CR and LF, and nothing else |
| X937Scan.CompareControl | src/pospay/bulk_import/x937.py:132-145 | no error exactly when the declared count and amount read as the actual totals |
| X937Scan.ParseX937File | src/pospay/bulk_import/x937.py:148-305 | the byte-cursor loop with its six totals and late flush computes the specified parse, error for error |
| X937Totals.RecordsAreLong | src/pospay/bulk_import/x937.py:69-97 | a readable file holds at most one record for every 80 bytes |
| X937Totals.ItemsCarryTheTotals | src/pospay/bulk_import/x937.py:174-220 | the items returned add up, in number and cents, to the checks read |
| X937Totals.NestedTotalsAddUp | src/pospay/bulk_import/x937.py:233-268 | in a well-nested file all controls agree if and only if each bundle declares its own checks, each cash letter the sum of its bundles and the file the sum of its letters |
| X937Totals.TotalsAreConserved | src/pospay/bulk_import/x937.py:148-305 | a well-nested file is accepted exactly then, and its file control equals what is handed to the caller |
| X937Alteration.CutIsAcceptedIff | src/pospay/bulk_import/x937.py:190-305 | a file cut short is accepted if and only if the cut is between records, with the items of the records left |
| X937Alteration.ReplacementKeepsTotals | src/pospay/bulk_import/x937.py:260-268 | a stretch of records before a file control can only be replaced by one with the same count and sum |
| X937Alteration.MovedRecordsAreCaught | src/pospay/bulk_import/x937.py:260-268 | removing or repeating any stretch of records with a check in it is rejected |
| X937Alteration.ChecksCannotBeMoved | src/pospay/bulk_import/x937.py:140-145 | removing or duplicating one check with its images, at every position of every accepted file that ends in a Type 99, is rejected |
| X937Alteration.ChangedAmountIsCaught | src/pospay/bulk_import/x937.py:207-220 | overwriting a check's amount field is accepted if and only if it still reads as the same amount |
| X937Printer.PrintReads | src/pospay/bulk_import/x937.py:190-302 | a printed record is read back whole, whatever follows it |
| X937Printer.CheckReads | src/pospay/bulk_import/x937.py:73-76 | a check is read from its own columns, whatever the others hold |
| X937Printer.LetterHeaderReads | src/pospay/bulk_import/x937.py:78-80 | so is the date of a cash letter |
| X937Printer.ControlReads | src/pospay/bulk_import/x937.py:103-114 | so are the count and the amount of each of the three controls |
| X937Printer.ImageReads | src/pospay/bulk_import/x937.py:95-97 | an image is as long as its length field says, whatever the rest of its header holds |
| X937RoundTrip.RoundTrip | src/pospay/bulk_import/x937.py:148-305 | printed cash letters, with any skipped records between any two records and any CR/LF behind each, parse to their checks in order with routing, account, number, amount, first and second image; dates are as printed if and only if `DatesKept` |
| X937RoundTrip.DatesKeptExactly | src/pospay/bulk_import/x937.py:174-187 | all dates are right if and only if each letter with checks has the date in force when its last check is flushed |
| X937RoundTrip.OnlyDatesMove | src/pospay/bulk_import/x937.py:174-187 | whatever the dates are, nothing but dates can differ |
| X937RoundTrip.SharedDateIsKept | src/pospay/bulk_import/x937.py:224-231 | one cash letter, or letters sharing a date, keep their dates |
| Nacha.RunningTotals.AddEntry | src/pospay/bulk_import/nacha.py:53-66 | the running totals grow by the entry's contribution and no more |
| Nacha.CodesAre | src/pospay/bulk_import/nacha.py:47-48 | which transaction codes move money in and out |
| Nacha.ParseNachaFile | src/pospay/bulk_import/nacha.py:125-204 | the line loop computes the specified parse, error for error |
| NachaTotals.ParseExact | src/pospay/bulk_import/nacha.py:95-204 | a file is accepted exactly when every line reads in its place, some entry exists, and every Type 8 and Type 9 equals the sums of its entries, the hash modulo 10^10; the value is those entries with their batch |
| NachaTotals.EntriesCarryTheSums | src/pospay/bulk_import/nacha.py:173-189 | the entries returned add up to the sums of the lines |
| NachaTotals.DebitsAndCredits | src/pospay/bulk_import/nacha.py:60-74 | with known codes all money is debit or credit, as the transaction type says |
| NachaTotals.FileControlMatchesResult | src/pospay/bulk_import/nacha.py:110-122 | every file control with no entry behind it declares the count and money of the entries returned |
| NachaAlteration.FileTotalIsSumOfBatches | src/pospay/bulk_import/nacha.py:95-122 | in a file of closed batches the controls agree if and only if each batch declares its own entries and the file the sum of the batches, the hash modulo 10^10 |
| NachaAlteration.LostEntryIsCaught | src/pospay/bulk_import/nacha.py:154-202 | losing an entry line of an accepted file is rejected if and only if a control behind it counts the entry or it was the only one |
| NachaChanges.ChangedEntryIsCaught | src/pospay/bulk_import/nacha.py:154-196 | putting any other line that begins with a 6 in place of an entry of an accepted file is rejected if and only if it does not read as an entry, or a control behind it counts the entry and its routing number, debit or credit is another |
| NachaChanges.FillerIsCaught | src/pospay/bulk_import/nacha.py:195-196 | an accepted file with a line of nines behind it is accepted if and only if the nines declare it, so not with fewer than 99,999,999 lines |
| NachaRoundTrip.RoundTrip | src/pospay/bulk_import/nacha.py:125-204 | printed closed batches, behind any lines that are passed over, parse to their entries in order, each with its line number and under its own batch; without an entry they are rejected |
| NachaErrors.ErrorNamesFirstBadLine | src/pospay/bulk_import/nacha.py:125-204 | a rejected file was read without fault, controls included, up to the line the error names, and that line cannot be read or declares another number, in the order of the code; or it has no entry at all |
| NachaErrors.EntryRefusals | src/pospay/bulk_import/nacha.py:154-189 | exactly when an entry is refused, and for what first |
| NachaErrors.HeaderRefusals | src/pospay/bulk_import/nacha.py:145-152 | a batch header is refused for its date alone |
| NachaErrors.ControlRefusals | src/pospay/bulk_import/nacha.py:77-122 | a control is refused for any of its four numbers, a line of no known type never |
| NachaPrinter.DatesReadAre | src/pospay/bulk_import/nacha.py:207-216 | read as a date are exactly six digits that name a real day from 1980 to 2079 |
| NachaTrimmed.TrimmedLineReads | src/pospay/bulk_import/nacha.py:136-141 | a line reads the same with and without the blanks at its end, whatever its length |
| NachaTrimmed.LongLineReads | src/pospay/bulk_import/nacha.py:136-141 | what stands behind the 94th column is not looked at |
| NachaTrimmed.TrimmedFileParses | src/pospay/bulk_import/nacha.py:136-141 | a file whose lines were trimmed, each at its own column, parses to the same entries or the same error |
| NachaPrinter.EntryColumnsRead | src/pospay/bulk_import/nacha.py:154-189 | an entry is read from its own columns, whatever the others hold |
| NachaPrinter.HeaderColumnsRead | src/pospay/bulk_import/nacha.py:145-152 | so is a batch header |
| NachaPrinter.BatchControlColumnsRead | src/pospay/bulk_import/nacha.py:95-107 | so is a batch control |
| NachaPrinter.FileControlColumnsRead | src/pospay/bulk_import/nacha.py:110-122 | so is a file control |
| NachaPrinter.EntryReads | src/pospay/bulk_import/nacha.py:154-189 | a printed entry is read back in all its fields |
| NachaPrinter.HeaderReads | src/pospay/bulk_import/nacha.py:145-152 | so is a printed batch header with a date from 1980 to 2079 |
| AuditChain.JoinIsInjective | src/pospay/services/audit_log_service.py:50-61 | if one entry's fields hold no separator, no other nine fields serialize the same |
| AuditChain.VerifyChain | src/pospay/services/audit_log_service.py:152-178 | valid if and only if every entry links and verifies; otherwise the count is of the longest good prefix and the id is of the entry after it |
| AuditChain.AuditLog.Latest | src/pospay/repositories/audit_log_repo.py:17-19 | a row with the greatest timestamp, if there is one |
| AuditChain.FollowsLatestMeans | src/pospay/services/audit_log_service.py:106-125 | the first entry of a bank links to none, every other to one that no earlier entry is younger than |
| AuditChain.AuditLog.RecordAction | src/pospay/services/audit_log_service.py:88-138 | one row is appended, signed on top of a latest row, and everything recorded before is kept |
| AuditTamper.VerifiesIffSameText | src/pospay/services/audit_log_service.py:152-178 | whatever the fields hold, the first n rows of any table verify if and only if they have the signed texts of the first n recorded for some bank |
| AuditTamper.VerifiesIffRecorded | src/pospay/services/audit_log_service.py:152-178 | if no recorded field holds a separator, they verify if and only if they are, in every signed field, the first n recorded for some bank: nothing edited, reordered, inserted or removed in between |
| AuditTamper.VerifiesAsFarAsIntact | src/pospay/services/audit_log_service.py:152-178 | with its first entry in place a table verifies exactly as far as it agrees with its own log |
| AuditTamper.PartsPinTheFields | src/pospay/services/audit_log_service.py:50-60 | the signed text determines every field but the id, absent and empty counting as one |
| AuditTamper.UntouchedVerifiesIffClockStrict | src/pospay/repositories/audit_log_repo.py:11-19 | an untouched log verifies in every order the query may return if and only if the timestamps strictly increase |
| AuditEdits.OtherTextCollidesIff | src/pospay/services/audit_log_service.py:50-61 | another action, summary or resource type can have the same signed text if and only if one of the three holds a separator |
| AuditEdits.EditGoesUnseenIff | src/pospay/services/audit_log_service.py:20-61 | the texts of a recorded entry can be edited so that its whole log still verifies if and only if one of them holds a separator |
| Sessions.SessionService.RevokeSession | src/pospay/services/session_service.py:49-63 | expired rows go, the session's row is kept or added with the longest keeping time, the rest is unchanged |
| Sessions.SessionService.LongestTenantSessionMinutes | src/pospay/services/session_service.py:62-63 | the greatest of the banks' own session lengths, or 0 |
| Sessions.LongestIsGreatest | src/pospay/services/session_service.py:62-63 | it is the length some bank set, none is greater, and it is 0 without any |
| Sessions.SessionService.RevokeAllSessions | src/pospay/services/session_service.py:66-70 | only the user's version grows |
| Sessions.SessionService.ClaimsCurrent | src/pospay/services/session_service.py:40-46 | current exactly when the version matches and the session is not listed as revoked |
| Sessions.SessionService.Refresh | src/pospay/services/session_service.py:73-119 | tokens are returned exactly for a genuine, current, backed refresh token, and are the two of the same session and end; any other changes nothing |
| Sessions.NewTokensAreCapped | src/pospay/auth/security.py:134-157 | every token ever minted ends by its session's end, an access token also by the idle timeout |
| Sessions.TimeoutsMean | src/pospay/auth/security.py:134-136 | a bank's own timeouts hold where it has them, else 30 minutes and a week |
| Sessions.TokensAreEarned | src/pospay/services/session_service.py:73-119 | every new token comes from a sign-in, or from an unexpired, unrevoked token of the user's version, a refresh token for a refresh, and is of its user, bank and session |
| Sessions.RefreshContinues | src/pospay/services/session_service.py:103-119 | a refresh that passes yields tokens that pass, to the same session end |
| Sessions.RunKeepsInv | src/pospay/auth/security.py:134-157 | over every run a session's end never changes and none of its tokens outlives it |
| Sessions.LoggedOutStaysOut | src/pospay/services/session_service.py:49-59 | over every run that never lowers the longest timeout, no token of a logged-out session is accepted again, in spite of pruning |
| Sessions.LoggedOutStaysOutFromStart | src/pospay/services/session_service.py:49-59 | the same from the first sign-in on |
| Sessions.RevocationHoldsIff | src/pospay/services/session_service.py:49-59 | with any settings, some later run accepts a revoked session again if and only if the second after its row's time comes before its end |
| Sessions.LogoutHoldsIff | src/pospay/services/session_service.py:54-58 | the same, right after a logout, in terms of the settings then |
| Sessions.StaleVersionStaysOut | src/pospay/services/session_service.py:40-44 | a token older than the user's version is never accepted again |
| Sessions.RevokeAllEndsEverySession | src/pospay/services/session_service.py:66-70 | after signing out everywhere no token the user held is accepted in any later run |
| Sessions.SignOutOthersKeepsOne | src/pospay/web/routers/security_settings.py:117-160 | afterwards only new tokens of the caller's own session pass, and those do |
| Lockout.User.AuthenticatePassword | src/pospay/auth/login_service.py:67-164 | every outcome and the new counter and lock; a locked account answers alike for right and wrong passwords; the membership is tenant-wide if one is usable, else the oldest |
| Lockout.UsableMeans | src/pospay/auth/login_service.py:165-177 | a password opens exactly an active membership that needs a key, or is tenant-wide at a bank that allows passwords, or is of a known customer that does |
| Lockout.DefaultMeans | src/pospay/auth/login_service.py:131-153 | the one picked is usable, tenant-wide if any usable one is, else the earliest created, the smaller id breaking ties |
| Lockout.User.CheckCurrentPassword | src/pospay/services/user_service.py:376-383 | a wrong password counts and may lock, whether or not the account is locked |
| Lockout.GuessesAreBounded | src/pospay/auth/login_service.py:89-103 | from any state, also under a lock longer than the present setting, in any interleaving of both forms, the guesses compared at sign-in stay within the allowance of the time span |
| Lockout.SignInGuessesAreBounded | src/pospay/auth/login_service.py:89-103 | from a zero counter at most the threshold plus one for every lockout period in the span |
| Lockout.BoundIsReached | src/pospay/auth/login_service.py:89-103 | for every span some run reaches the bound |
| Lockout.CurrentPasswordIsAlwaysCompared | src/pospay/services/user_service.py:376-383 | guesses at the other form are all compared |
| ModelRegistry.ActiveRow | src/pospay/ml/registry.py:84-88 | an active row of the slot if there is one, none only if there is none |
| ModelRegistry.Registry.ActivateModel | src/pospay/ml/registry.py:133-165 | refused exactly when the row is not in the slot named; else it replaces the slot's active row and nothing more |
| ModelRegistry.Registry.SeedBankModels | src/pospay/services/tenant_ml_service.py:109-119 | copies of the readable active shared models, each activated in the bank's slot |
| ModelRegistry.ActivatesOneSlot | src/pospay/ml/registry.py:158-165 | afterwards the row is its slot's only active one and every other slot answers as before |
| ModelRegistry.SeededGrows | src/pospay/services/tenant_ml_service.py:94-119 | seeding gives the bank a model wherever a shared one was readable and touches no other slot |
| ModelRegistry.WinnerIs | src/pospay/ml/train.py:113-166 | which of two models wins: the first, never a bank's own on fewer than 200 decisions, the better on the same recent decisions, else against the recorded figure |
| ModelRegistry.ScoresFromOwnSlots | src/pospay/ml/predict.py:27-61 | a row scores an exception if and only if it is the active one of the customer's own slot, else of the bank's when bank-only, else of the shared slot |
| ModelProvenance.MlService.SwitchToBankOnly | src/pospay/services/tenant_ml_service.py:94-123 | exactly when allowed: models seeded, source and time set |
| ModelProvenance.MlService.SwitchToShared | src/pospay/services/tenant_ml_service.py:126-138 | exactly with consent from a bank-only bank: source and time set |
| ModelProvenance.MlService.StoreModel | src/pospay/ml/train.py:225-267 | the new row was fitted on the decisions read, is active exactly if forced or it wins, else retired, and the result says which |
| ModelProvenance.SlotsOverRuns | src/pospay/ml/registry.py:133-165 | over every run each slot has at most one active model and never loses its last |
| ModelProvenance.OtherSlotsUntouched | src/pospay/ml/registry.py:142-165 | no step changes the active model of a slot its caller did not name |
| ModelProvenance.NoScoringGap | src/pospay/services/tenant_ml_service.py:10-16 | a bank that left while a shared model was readable has a scoring model in every later state |
| ModelProvenance.ModelsLearnFromEligibleData | src/pospay/ml/train.py:58-91 | over every run, a model was fitted on the older four fifths of the data of its slot that was eligible when it was read; a bank's may be a copy of one of the shared slot |
| ModelEligibility.SharedModelLearnedFrom | src/pospay/ml/train.py:69-91 | over every run, each decision in a shared model was, when read, of its network, with features, not retracted, of a bank on the shared model, and approved if a fraud example |
| ModelEligibility.CustomerModelLearnedFrom | src/pospay/ml/train.py:78-79 | each decision in a customer's model was that customer's |
| ModelEligibility.BankModelLearnedFrom | src/pospay/ml/train.py:80-81 | each decision in a bank's model was that bank's, or came with the shared model it is a copy of |
| ModelEligibility.ReadIsExactlyTheEligible | src/pospay/ml/train.py:69-91 | what is read for a slot is exactly the decisions that qualify, by their columns |
| ModelEligibility.ReadOnceOldestFirst | src/pospay/ml/train.py:77 | each once, none before an older one |
| ModelEligibility.RetractedIsNeverRead | src/pospay/ml/train.py:72-76 | once retracted, a decision is read for no model in any later state |
| ModelEligibility.BankAfter | src/pospay/services/tenant_ml_service.py:94-138 | what every step makes of a bank's choice, its time of change and its lock |
| ModelEligibility.SomethingIsRead | src/pospay/ml/train.py:69-91 | in every state the query has an answer, with every decision that qualifies |
| ModelEligibility.FourFifths | src/pospay/ml/train.py:215-223 | the older four fifths are learned from |
| ModelEligibility.TrainingBeginsIff | src/pospay/ml/train.py:189-213 | exactly when a training run begins: ten decisions, and a minute since the slot's last row |
| ModelLeaks.LeaksAreDetectedIff | src/pospay/workers/tasks.py:64-71 | over a run, the active shared model is never one fitted on data of a now bank-only bank unnoticed if and only if no shared model is activated while such a bank is among its contributors |
| ModelLeaks.UndisturbedTrainingIsClean | src/pospay/ml/train.py:206-267 | training is such an activation whenever no bank leaves between reading the data and storing the model |
| ModelLeaks.ReactivationHidesLeak | src/pospay/api/v1/platform_ml.py:67-74 | a bank that leaves is noticed, and is no longer after the same model is activated by hand |
| ModelLeaks.LeavingDuringTrainingHidesLeak | src/pospay/ml/train.py:206-267 | a bank that leaves between reading and storing is not noticed |
| ModelLeaks.ReadTimeCheckMissesNothing | src/pospay/services/tenant_ml_service.py:160-169 | in every reachable state, a shared model fitted on data of a now bank-only bank is one that a bank has left since its data was read |
| ModelLeaks.GuardedRunsAreDetected | src/pospay/workers/tasks.py:64-71 | if every activation asks that no bank has left since the model's data was read, the check by activation time never misses one |
| Decisions.StepKeepsInv | src/pospay/services/decision_service.py:72-181 | all invariants below survive every step of every service |
| Decisions.ReachableIsSound | src/pospay/services/decision_service.py:72-181 | in every reachable state a decision exists exactly for the paid and returned and agrees, pending means a known maker, and a decision under dual control was submitted by the last maker and decided by another |
| Decisions.AchReturnsAgree | src/pospay/services/decision_service.py:174-178 | in every reachable state an ACH item is returned if and only if some exception of it was decided so |
| Decisions.DecidedForever | src/pospay/services/decision_service.py:136-139 | no later step changes a decision or reopens its exception |
| Decisions.DecideMeetsNoDecision | src/pospay/domain/decision.py:40-42 | the unique constraint never stops `decide` |
| Decisions.LookupMeetsOne | src/pospay/services/bulk_upload_reversal_service.py:110-114 | a paid item that may be backed out never has two exceptions |
| Decisions.OcrLookupMeetsTwoIff | src/pospay/networks/check/ocr_processing.py:90-123 | in a reachable state the exception lookup after character recognition meets two rows if and only if the check was labelled as fraud while it had an exception |
| Decisions.WithdrawnLeavesIff | src/pospay/workers/tasks.py:219-241 | a withdrawn exception is reopened if and only if the step is a sweep that selected it before and finds an outcome |
| Decisions.WithdrawnStaysIff | src/pospay/workers/tasks.py:219-241 | over a run it stays withdrawn if and only if no such sweep comes |
| Decisions.StaleSweepDecidesWithdrawn | src/pospay/workers/tasks.py:219-241 | select, back out, decide: a reversed item whose exception is paid |
| Decisions.ReturnReasonsAreFromCatalog | src/pospay/services/decision_service.py:48-69 | in every reachable state an ACH return, by whichever service, has text and code of an entry active when it was made |
| Decisions.SweepDecidesLikeAPerson | src/pospay/services/auto_disposition_service.py:165-202 | for one outcome and reason the sweep changes what `decide` without dual control changes |
| Decisions.SweepDecidesAsSet | src/pospay/services/auto_disposition_service.py:146-163 | in any step, a decision that no person made is the sweep's: AUTO_DEFAULT pays under FIXED_PAY and returns under FIXED_RETURN, AUTO_ML pays from one half up |
| Decisions.AutomaticDecisionsAreAsSet | src/pospay/services/auto_disposition_service.py:146-203 | so over every run |
| Decisions.SweepDecidesIff | src/pospay/services/auto_disposition_service.py:141-178 | exactly when the sweep decides a row it selected |
| Decisions.RecommendationIsRecorded | src/pospay/services/decision_service.py:95-107 | a recommendation keeps its outcome, reason and maker |
| DecisionRules.DecidesIff | src/pospay/services/decision_service.py:113-160 | exactly when `decide` decides, dual control included |
| DecisionRules.DecisionIsRecorded | src/pospay/services/decision_service.py:150-181 | what the decision says, and the status and settlement it leaves |
| DecisionRules.DecideRefusals | src/pospay/services/decision_service.py:113-160 | which refusal a checker is given |
| DecisionRules.RecommendRefusals | src/pospay/services/decision_service.py:72-110 | which refusal a maker is given, and what is left if there is none |
| DecisionRules.Labels | src/pospay/services/fraud_training_service.py:166-244 | exactly when a fraud example is taken, and all that it leaves |
| DecisionRules.Escalates | src/pospay/networks/check/ocr_processing.py:90-123 | exactly when a check is escalated after character recognition |
| DecisionRules.BacksOut | src/pospay/services/bulk_upload_reversal_service.py:105-170 | which checks are reversed and which exceptions are withdrawn |
| DecisionServices.Cases.SubmitRecommendation | src/pospay/services/decision_service.py:72-110 | the error, or the recommendation and its maker on the exception |
| DecisionServices.Cases.Decide | src/pospay/services/decision_service.py:113-181 | the error in the code's order, or decision, status and settlement |
| DecisionServices.Cases.AutoDecideException | src/pospay/services/auto_disposition_service.py:132-203 | nothing without an outcome or reason, else decision, status and settlement |
| DecisionServices.Cases.SubmitAchFraudExample | src/pospay/services/fraud_training_service.py:166-244 | refused for an inactive reason or a second label, else item, exception and decision |
| Reversal.Upload.BackOutPaidItem | src/pospay/services/bulk_upload_reversal_service.py:135-170 | the refusal, or settlement, linked item and exception after it, and the note on what was left as it was |
| Reversal.Upload.BackOutOne | src/pospay/services/bulk_upload_reversal_service.py:53-102 | the refusal, or the new state, of one resource of any kind |
| Reversal.IssuedAfter | src/pospay/services/bulk_upload_reversal_service.py:53-78 | what a back-out does to each issued item: the one named voided, never a paid one; the linked paid one outstanding again; no other touched |
| Reversal.NoteMeans | src/pospay/services/bulk_upload_reversal_service.py:105-170 | the note that goes with it: a linked item no longer paid, or the status of an exception that was already decided or withdrawn |
| Reversal.RestAfter | src/pospay/services/bulk_upload_reversal_service.py:81-170 | what it does to memberships, settlements and exceptions |
| Reversal.RefusalsAre | src/pospay/services/bulk_upload_reversal_service.py:53-102 | exactly when an issued item or a membership is refused, and as what |
| Reversal.PaidRefusalsAre | src/pospay/services/bulk_upload_reversal_service.py:135-150 | exactly when a paid item is |
| Reversal.Upload.BackOutUpload | src/pospay/services/bulk_upload_reversal_service.py:193-265 | the committed state is the fold of the groups, the results are theirs, and a second call does nothing |
| Reversal.LabelsAreDistinct | src/pospay/services/bulk_upload_reversal_service.py:221-223 | one group for every label that occurs |
| Reversal.MarkedIffSucceeded | src/pospay/services/bulk_upload_reversal_service.py:246-253 | a record is marked afterwards if and only if it was before or its line succeeded |
| Reversal.MarkedIsBackedOut | src/pospay/services/bulk_upload_reversal_service.py:225-253 | a marked record that is the only one of its line but for images is backed out and stays so |
| Reversal.NothingBackedOutTwice | src/pospay/services/bulk_upload_reversal_service.py:53-170 | if two lines of a file name one thing and the first is backed out, the second is refused, whatever comes between |
| Reversal.BackOutKeepsInv | src/pospay/services/bulk_upload_reversal_service.py:105-132 | over a back-out the exceptions keep their invariants and no lookup meets two rows |
| Reversal.BackOutOnlyWithdraws | src/pospay/services/bulk_upload_reversal_service.py:105-132 | a back-out decides and returns nothing and withdraws only undecided exceptions of items it reversed |
| BulkRows.FirstMatch | src/pospay/repositories/base.py:49-64 | the first account in scope with the number or reference, none only if none matches |
| BulkRows.NumberComesFirst | src/pospay/services/account_service.py:56-85 | a number is looked for among all accounts in scope before any reference is |
| BulkRows.Session.ResolveAccount | src/pospay/services/account_service.py:56-103 | the account by number, else by reference, else a new one in the caller's scope if asked for |
| BulkRows.Session.CreateIssuedItemsFromRows | src/pospay/services/issued_item_service.py:167-211 | the committed state is the fold of the rows as atomic inserts, with one result a row |
| BulkRows.ResultMeansItem | src/pospay/services/issued_item_service.py:183-211 | a row's result is success if and only if it brought one more item |
| BulkRows.FailuresLeaveNoTrace | src/pospay/services/issued_item_service.py:183-211 | a file does what its successful rows do alone, with one item for each |
| BulkRows.RowIsStored | src/pospay/services/issued_item_service.py:51-68 | the item has the row's check number, amount, payee and date, and an account of its number or reference |
| BulkRows.RunKeepsInv | src/pospay/services/account_service.py:31-41 | over every run of uploads, single items and new accounts, numbers, references and check numbers stay unique and items owned like their accounts |
| BulkRows.ReachableRows | src/pospay/services/account_service.py:31-41 | the same from an empty bank, on the columns |
| ScopedRows.RowsAreOwned | src/pospay/services/stop_payment_service.py:35-52 | in every reachable state every row of every table has the bank and customer of its account, through as many rows as it takes, but for an image uploaded for no paid item, which has its uploader's |
| ScopedRows.OwnersMatch | src/pospay/services/stop_payment_service.py:35-52 | the same on the columns, with the tables that a row of each table may stand under |
| ScopedRows.ReadsStayInScope | src/pospay/repositories/base.py:30-32 | get finds exactly the rows that carry the reader's bank, and customer if it has one |
| ScopedRows.GetEqualsJoinOrLoose | src/pospay/repositories/base.py:30-32 | over every run, get finds a row if and only if its account is seen, or it is such an image and its uploader's bank and scope are seen |
| ScopedRows.ReadsEqualJoinIff | src/pospay/repositories/base.py:42-100 | over every run, for every table, caller and further filter, list and count on own columns answer what they would through the account if and only if no such image is among the rows read, so always but for images |
| ScopedRows.LooseImageIsRead | src/pospay/api/v1/check_images.py:38-61 | one upload without a paid item gives an image that its uploader reads and no account leads to |
| BulkRows.FileAddsInScope | src/pospay/services/issued_item_service.py:51-68 | an upload changes no row and adds accounts and items only for its caller's bank and customer |
| BulkRows.BlockedIsRefused | src/pospay/services/issued_item_service.py:127-211 | the exact condition under which a row is refused |
| BulkRows.RefusalReasons | src/pospay/services/issued_item_service.py:127-211 | and what the row is then told |
| BulkRows.ReuploadAddsNothing | src/pospay/services/issued_item_service.py:167-211 | the same file again adds nothing |
| Dropbox.DropboxScan.Move | src/pospay/services/dropbox_import_service.py:162-170 | the file leaves the inbox for the target folder, under a stamped name if its own is taken |
| Dropbox.DropboxScan.ProcessOneFile | src/pospay/services/dropbox_import_service.py:173-228 | too large goes to failed, a duplicate stays, the rest is recorded, ingested and moved |
| Dropbox.FateOfFile | src/pospay/services/dropbox_import_service.py:162-228 | the same written out: above 50 MiB failed unread, known content left in place, the rest recorded, ingested and moved, under a stamped name if its own is taken |
| DropboxImports.IngestedOnlyAsRecorded | src/pospay/services/dropbox_import_service.py:198-214 | over every run of overlapping, failing scans a content is ingested at most as often as it was recorded before |
| DropboxImports.TwiceFromHereIff | src/pospay/services/dropbox_import_service.py:189-214 | from any state, scans under way can import a content twice if and only if it was imported, or is held by a worker that found it new, at least twice |
| DropboxImports.ImportedTwiceIff | src/pospay/services/dropbox_import_service.py:189-214 | over every run, scans under way can at some moment import a content twice if and only if a worker takes it up while another holds it |
| DropboxImports.SequentialScansImportOnce | src/pospay/services/dropbox_import_service.py:245-257 | scans one after the other, by any workers and failing anywhere, import every content at most once |
| DropboxImports.TwoScansImportTwice | src/pospay/services/dropbox_import_service.py:189-214 | two overlapping scans of one file import it twice |
| DropboxFiles.FilesAreConservedIff | src/pospay/services/dropbox_import_service.py:162-170 | every dropped file is in exactly one of inbox, processed and failed if and only if every move found its target name free |
| DropboxFiles.ProcessedUningestedIff | src/pospay/services/dropbox_import_service.py:189-223 | over every run, scans under way can at some moment end with a processed file that was never ingested if and only if a worker takes up a path that another is at work on |
| DropboxFiles.InterruptedIsNeverImported | src/pospay/services/dropbox_import_service.py:198-211 | a scan that ends between recording and ingesting leaves its file in the inbox for ever and never ingested |

## Left out

- Reversal.MarkedIsBackedOut: needs a line with one record besides images; the code marks every record of a line but backs out only the first that is not an image.
- ModelProvenance.ModelsLearnFromEligibleData: speaks of the moment of reading; an example retracted later stays in the models that learned from it, as in the code.
- ModelProvenance.NoScoringGap: is about the registry's rows; whether a model's file still loads is left to the file system.
- Wording of error messages; kinds of errors, and in X9.37 the byte, are kept.
- `int()` of non-ASCII digits, `str.splitlines` (lines are given) and decoding beyond "replace what is not ASCII".
- ModelLeaks.GuardedRunsAreDetected: the guard asks about every bank, contributor or not, because the code keeps no list of contributors.
- Signatures, hashes, tokens and passwords are ideal: exactly what was signed verifies, a fingerprint is as good as its content, comparing a password is equality.
- JSON of audit metadata and UTF-8: each field is given as text; that typed fields hold no separator is an assumption where it is needed.
- Refreshes re-reading membership, customer scope and group from the database: one flag, `backed`; switching organization is a logout and a login.
- Fitting, scoring and the AUC of a model and its in-process cache: the AUCs are given, and the 0.8 of the split is exact.
- Matching rules of checks and ACH transactions: ingestion is an assumed step that settles an item or opens one exception.
- Whether an existing item is within the scope of who labels it as fraud; retracting checks it.
- Feature snapshots, notifications and audit entries; the texts of a back-out's results (each says its line and whether it succeeded).
- Parsing the cells of a spreadsheet row: a missing or unreadable field is None. The accounts upload is the step AddAccount; voiding is in Reversal; no service moves an account to another customer.
- Rows that belong to no account at all, such as upload files and memberships.
- Which files of an inbox are old enough, and the walk over banks and customers: any file may be begun at any time.
- Two database transactions at once, other than the sweep's stale rows and overlapping dropbox scans: each service call is one step.
