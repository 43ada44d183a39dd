# barghman: the outage-notification cache, modelled in Dafny

barghman polls an electricity provider for planned outages on a set of bill
ids. It mails each new or changed outage to the configured recipients as an
iCalendar invitation. It keeps one JSON file per outage in a cache directory,
so that an outage is not mailed twice. A second job deletes cache files that
have outlived a retention period.

This project models the deterministic core of that program.

- `text.dfy` (module `Text`): the pieces of Go's standard library the core
  relies on, defined concretely. These are `strings.Split` and
  `strings.Join`, `%d`, `strconv.Atoi`, and newline escaping.
- `clock.dfy` (module `Clock`): `time.Time` as an instant plus a zone offset,
  `Equal`, and the `DateOnly`, `TimeOnly` and UTC stamp layouts. The
  Persian-calendar conversion `ptime.Date` is a function carried by the
  `Location`.
- `lines.dfy` (module `Lines`): reading a cache file back through
  `bufio.Scanner` with its default line splitting. `Scanned` says what the
  reading loop of `func.go:78-87` collects, and `ScanFile` is that loop.
- `outage.dfy` (module `Outage`): the provider's `Data` record,
  `Data.ParseTime` with its single error `ErrInvalidOutageDateFormat`, and
  `Data.ToFileContent`.
- `cache.dfy` (module `Cache`): the cached record `FileContent` and its file
  name, summary and description. The JSON codec is a pair of functions with
  the laws the model relies on. `CacheStore` is a class holding the cache
  directory as a map from path to bytes and modification time; its methods
  are `LoadOrCreateFile` and `Write`.
- `jobs.dfy` (module `Jobs`): the two jobs of `func.go`.
  - The mailer reads a cache file back, decides between skip, notify with
    sequence 0 and notify with the stored sequence + 1, mails, and then
    writes. It does this for each record of each bill id.
  - The janitor deletes the files last modified before `now - period`.

  `ProcessRecords`, `ProcessBills` and `DeleteCache` are module-level
  methods that take the `CacheStore` and update its directory. Each is
  proved equal to a function of the old directory (`RunRecords`,
  `RunBills`, `Swept`), and the lemmas about that function state what the
  loop promises. The per-record steps (`ReconcileRecord` and the methods it
  calls) are proved equal to `Reconcile` and its parts in the same way.
- `mail.dfy` (module `Mail`): the choice of SMTP authentication, the LOGIN
  challenge and response, and the text `Mail.Do` assembles. That text has
  headers, the calendar part, one VEVENT per outage whose times parse, and
  one ATTENDEE line per recipient. The iCalendar shape is RFC 5545,
  sections 3.4 and 3.6.1.

Failures of the operating system, the network and the mail server appear as
parameters (`RecordFaults`, `readDirFails`, `statFails`, `removeFails`), so
any combination of them can be stated. Each lemma's `requires` and arguments name the
failures it assumes absent: the scenario lemmas of the mailer assume no
open, read or mail failure, and some no write failure either, and
`SweepKeepsExactlyRecent` assumes a readable directory and no stat or remove failure.
`CacheChangesOnlyAfterMail`, `DeliverChangesOnlyAfterMail`,
`MailFailureKeepsCache`, `Swept` and `SweepFailuresKeepFiles` hold under
every combination. A failing `WriteAt` may still have written a prefix of
the record; `RecordFaults.torn` says how many bytes.
The provider's answer for each bill id is a parameter too. It is either the
fetched records or a fetch failure.

Behaviour of the program worth knowing:

- The skip rule is an OR. A record is skipped when its start OR its end
  equals the cached one (`func.go:100`).
- `Write` does not truncate the file. `ShorterRewriteLeavesStaleTail` and
  `StaleTailBlocksKey` prove the consequence. Once a record is written over
  a longer one, the old record's tail stays behind, the file no longer
  decodes, and every later poll of that outage is skipped until the janitor
  deletes the file.
- A write that fails part-way leaves a torn file behind. The record counts
  as not cached, yet its file has changed (`CacheChangesOnlyAfterMail`).
- The event text has no SEQUENCE property (`NoSequenceProperty`). The UID is
  the bare outage number (`EventUid`).
- The sequence is a Go `uint`, so `sequence + 1` wraps to 0 after 2^64 - 1
  (`Increment`).
- `Mail.Do` calls `d.Summary()` and `d.Description()` on `Data`, but these
  are declared on `*FileContent`. The model uses the `FileContent` formulas
  on the record's address and reason and on its parsed times.
- The `ConvertFailed` branch of the record loop (`func.go:108-112`) cannot be
  reached. `ToFileContent` fails only when `ParseTime` fails, and that has
  already been checked at `func.go:64-68`. `DeliverRecord` keeps the branch,
  and its contract shows that it is never taken.
- `DateOnly` prints the date on the instant's own zone, so two `Equal`
  instants can name different cache files (`DateOnlyIsLocal`).

## Model

| member | source | states |
|---|---|---|
| Text.Split | barghman_client.go:139 | strings.Split on one character: one piece more than the separator occurs, no piece contains the separator, and joining the pieces with the separator gives the input back |
| Text.Join | mail.go:79 | strings.Join: the length is the pieces' lengths plus one separator between neighbours, and the text starts with the first piece |
| Text.SplitJoin | mail.go:79 | splitting a join at the same separator gives the pieces back when no piece contains it |
| Text.Dec | file.go:36 | %d prints digits only, with a leading '-' exactly for a negative number |
| Text.DigitsValueOfDigits | file.go:36 | the digits %d prints read back as the number |
| Text.Atoi | barghman_client.go:157 | strconv.Atoi succeeds exactly on an optional sign followed by one or more digits whose value fits in int64, and then returns that signed value |
| Text.AtoiRejects | barghman_client.go:157-161 | the empty text, a lone sign, a second sign and a non-digit are errors |
| Text.AtoiPlusSign | barghman_client.go:157 | "+7" reads as 7 |
| Text.AtoiLeadingZeros | barghman_client.go:157 | "007" reads as 7 |
| Text.AtoiNegativeZero | barghman_client.go:157 | "-0" reads as 0 |
| Text.AtoiDec | barghman_client.go:157-197 | strconv.Atoi reads back every int64 that %d printed |
| Text.DecInjective | file.go:36 | %d prints different numbers differently |
| Text.EscapeNewlines | file.go:66-67 | the escaped text has no newline and is one character longer per newline |
| Text.UnescapeEscape | file.go:66-67 | for text without backslashes, the escaping can be undone |
| Clock.Pad | file.go:36 | a time field is digits and '-' only and at least as wide as its layout |
| Clock.PadReadsBack | file.go:36 | a field with room for all its digits is exactly as wide as the layout and reads back as its value |
| Clock.CivilFromDaysBounds | file.go:36 | the civil date of any day has a month from 1 to 12 and a day from 1 to 31 |
| Clock.DateOnly | file.go:36 | the DateOnly layout prints at least ten characters, all digits or '-', so never an '_' |
| Clock.DateOnlyReadsBack | file.go:36 | for years 0 to 9999, DateOnly prints "YYYY-MM-DD" whose fields read back as the civil date of the instant's local day |
| Clock.DateOnlyIsLocal | file.go:36 | the date is taken on the instant's own zone: the epoch prints 1970-01-01 in UTC and 1969-12-31 one hour west, though the two instants are Equal |
| Clock.TimeOnlyReadsBack | file.go:67 | TimeOnly prints "HH:MM:SS" whose fields read back as the seconds since local midnight, with hour below 24 and minute and second below 60 |
| Clock.UtcStampReadsBack | mail.go:100-102 | the stamp ends in "T", six clock digits that read back as the seconds since UTC midnight, and "Z"; Equal instants print the same stamp |
| Cache.FileContent.Name | file.go:31-33 | the record's file name parses back into its bill id, printed outage number and printed start date |
| Cache.FileName | file.go:35-37 | the name starts with the bill id and '_' and ends with ".json" |
| Cache.FileNameRoundTrip | file.go:35-37 | "{bill_id}_{outage_number}_{date}.json" parses back, at its last two '_', into the three parts |
| Cache.ParseJoinedName | file.go:36 | three parts joined by '_' with ".json" parse back when the last two have no '_' |
| Cache.FileNameInjective | file.go:35-37 | two keys with the same file name have the same bill id, outage number and start date |
| Cache.CachePath | file.go:55 | the path is the directory text immediately followed by FileName, with no separator |
| Cache.CachePathInjective | file.go:55 | in one directory, two keys with the same path have the same bill id, outage number and start date |
| Cache.FileContent.Summary | file.go:61-63 | the summary is "Power Outage on " followed by the address |
| Cache.FileContent.Description | file.go:65-68 | the description has no newline; for text without backslashes, unescaping gives back the multi-line details |
| Cache.DescriptionText | file.go:66-67 | the details text with each newline escaped: one line, and it can be undone |
| Cache.WriteAt | file.go:46 | WriteAt at offset 0 replaces the first len(content) bytes, keeps the later ones, and never shortens the file |
| Cache.Opened | file.go:58 | O_RDWR, O_CREATE creates a missing file empty and leaves every existing file untouched |
| Cache.TornLength | file.go:46 | a failing WriteAt writes at most the content and at most the reported count |
| Cache.Written | file.go:39-52 | Write succeeds exactly when encoding and I/O succeed; an encoding error changes nothing; an I/O error may leave a prefix of the encoding written; no other file changes |
| Cache.CacheStore.LoadOrCreateFile | file.go:54-59 | the path is cachePathDir immediately followed by FileName; on success the file exists, on failure the directory is unchanged |
| Cache.CacheStore.Write | file.go:39-52 | the new directory is Written's; an encoding failure changes nothing; on success the file starts with the encoding and did not shrink |
| Outage.ParseClocks | barghman_client.go:139-197 | the split and conversions succeed exactly on a well-formed record, and start and stop share the year, month and day |
| Outage.ParseTime | barghman_client.go:138-203 | no error exactly on a well-formed record; otherwise ErrInvalidOutageDateFormat with two zero times; on success both instants are ptime.Date of the parsed clocks |
| Outage.ParseTimeRoundTrip | barghman_client.go:138-203 | any seven int64 values printed as "y/m/d", "h:m" and "h:m" parse back, with no range check and no order check on start and stop |
| Outage.SplitThreeNumerals | barghman_client.go:139-143 | a date printed as three numerals splits on '/' into exactly those three |
| Outage.SplitTwoNumerals | barghman_client.go:145-155 | a time printed as two numerals splits on ':' into exactly those two |
| Outage.SplitThree | barghman_client.go:139 | three separator-free pieces joined by the separator split back into them |
| Outage.Converted | barghman_client.go:124-135 | the built record carries the parsed start and stop and the given sequence |
| Outage.ToFileContent | barghman_client.go:117-136 | fails exactly when ParseTime fails; otherwise the UID is billID_number_date and every field is copied or parsed |
| Outage.ToFileContentConverts | barghman_client.go:117-136 | once ParseTime succeeds, ToFileContent builds the record of the parsed times for every sequence |
| Outage.ConvertedFileName | barghman_client.go:125 | a converted record's file name is its UID plus ".json", and equals FileName of its key |
| Lines.LineEnd | func.go:80 | the end of a line lies between its start and the end of the data, and is a newline unless it is the end |
| Lines.LineEndFirst | func.go:80 | no newline lies between the start of a line and its end |
| Lines.LineEndAt | func.go:80 | the first newline at or after the start, or the end of the data, is where the line ends |
| Lines.ScannedBytes | func.go:78-82 | the bytes collected by scanning hold no newline and are no longer than the file |
| Lines.ScannedSingleLine | func.go:78-82 | a file of one line that is short enough and ends without a carriage return scans back as itself |
| Lines.ScanLastLine | func.go:78-82 | a last line without newline is collected without its final carriage return |
| Lines.ScanLineThen | func.go:78-82 | a line ended by a newline is collected without its carriage return, and the scan goes on after the newline |
| Lines.ScannedLines | func.go:78-82 | a file of newline-terminated lines and a last line scans back as every line without its terminator, concatenated in order |
| Lines.LongLineStops | func.go:80-87 | a line of 64 KiB or more stops the scan with an error, whatever follows |
| Lines.ScanFile | func.go:78-87 | the scanning loop succeeds exactly when there is no read error and no line is too long, and then collects what Scanned describes |
| Jobs.Increment | func.go:105 | sequence + 1 on a uint: one more, or 0 after the largest value |
| Jobs.Decide | func.go:89-106 | empty data notifies with sequence 0; undecodable data is skipped; a cached start or end Equal to the new one skips; otherwise notify with the cached sequence + 1 |
| Jobs.Reconcile | func.go:63-122 | one record fails with ParseFailed exactly when ParseTime fails, and then nothing changes |
| Jobs.ReconcileParsed | func.go:70-122 | an open failure changes nothing; otherwise the record's file exists afterwards and no other file appears; a scan failure leaves only the opened file |
| Jobs.Respond | func.go:89-121 | the outcome follows Decide: undecodable and unchanged records leave the directory as it was, and a send carries Decide's sequence |
| Jobs.Deliver | func.go:108-121 | the record is mailed unless the mail fails, which changes nothing; it is cached exactly when encoding and writing succeed |
| Jobs.ReconcileRecord | func.go:63-122 | one record, step by step, leaves the directory and the outcome that Reconcile describes |
| Jobs.ReconcileParsedRecord | func.go:70-122 | the steps after a successful ParseTime match ReconcileParsed |
| Jobs.RespondToRecord | func.go:89-122 | the decision on the bytes read back, the mail and the write match Respond |
| Jobs.DeliverRecord | func.go:108-121 | conversion, mail and write match Deliver; the convert failure never occurs |
| Jobs.FirstSightingSendsZero | func.go:89-108 | a missing or empty cache file means the record is mailed with sequence 0, and cached exactly when encoding and writing succeed |
| Jobs.EitherBoundaryMatchSkips | func.go:100-103 | a cached start equal to the new start, or a cached end equal to the new end, skips the record and leaves the directory as it was |
| Jobs.BothBoundariesChangedResends | func.go:105 | when both boundaries differ from the cached ones, the record is mailed with the cached sequence + 1 |
| Jobs.UnreadableRecordSkips | func.go:84-96 | a scan error or an undecodable cache file skips the record and writes nothing |
| Jobs.CacheChangesOnlyAfterMail | func.go:114-121 | an existing file changes only when it is the record's own and the record was mailed, and then it was cached or the write failed part-way; only the record's own file can appear, empty unless so written |
| Jobs.DeliverChangesOnlyAfterMail | func.go:114-121 | mailing and writing change no file but the record's own, and that one only after the mail went out and a write that succeeded or failed part-way; a write that was not attempted changes nothing |
| Jobs.MailFailureKeepsCache | func.go:114-117 | a mail failure sends nothing and leaves every existing cache file unchanged |
| Jobs.WrittenRecordReadsBack | file.go:39-52 | a record written over a file no longer than its encoding scans and decodes back as the same record |
| Jobs.ShorterRewriteLeavesStaleTail | file.go:46 | a shorter encoding written over a longer record keeps the file's length and leaves a single line that no longer decodes |
| Jobs.SentCachedWrote | func.go:108-121 | a record mailed and cached means no open, mail or write failure, and the directory is the open file written with that record |
| Jobs.ResendSuppressed | func.go:89-103 | after a record was mailed and cached, polling it again sends nothing and changes nothing |
| Jobs.SequenceAdvances | func.go:105 | after a cached send with sequence s, a change of both boundaries is mailed with s + 1 |
| Jobs.StaleTailBlocksKey | func.go:93-96 | after a shorter record is written over a longer one, every later poll of that key fails to decode and is skipped |
| Jobs.ThreePollScenario | func.go:63-122 | first poll mails with sequence 0 and caches; the same record again is skipped; both boundaries moved mails with sequence 1 |
| Jobs.RunRecords | func.go:63-122 | the loop over a bill id's records yields one outcome per record |
| Jobs.EachRecordReconciled | func.go:63-122 | no failure stops the loop: the i-th outcome is that record's Reconcile against the directory the earlier records left |
| Jobs.ProcessRecords | func.go:63-122 | the loop over the records leaves the directory and outcomes RunRecords describes |
| Jobs.RunBills | func.go:56-125 | the loop over the bill ids yields one outcome per bill id |
| Jobs.RunBillsOutcome | func.go:57-63 | a bill id's outcome is a fetch failure exactly when its fetch failed, and otherwise holds one outcome per fetched record |
| Jobs.FetchFailureSkipsOnlyThatBill | func.go:57-61 | a failed fetch leaves the directory as the earlier bill ids left it |
| Jobs.ProcessBills | func.go:56-125 | the loop over the bill ids leaves the directory and outcomes RunBills describes |
| Jobs.Swept | func.go:16-37 | an unreadable directory is kept whole; otherwise a file is gone exactly when Removed holds for it (its stat and remove succeed and it is older than the cutoff), and every kept file is unchanged |
| Jobs.DeleteCache | func.go:12-40 | the sweep leaves exactly the directory Swept describes |
| Jobs.SweepKeepsExactlyRecent | func.go:29-37 | without errors the sweep keeps exactly the files modified at or after now - period, unchanged |
| Jobs.SweepFailuresKeepFiles | func.go:16-36 | an unreadable directory, a failed stat, a failed remove or a recent time keeps the file unchanged, and when the directory is readable every file Removed holds for is gone |
| Jobs.SweepScenario | bargheman_test.go:68-104 | a file 48 hours old and one modified now, with a 24-hour period: only the older one is deleted |
| Mail.NewMailClient | mail.go:52-69 | a client exactly for "md5", "plain" and "custom", whose authentication matches the setting and which carries the configuration and zone |
| Mail.NewMailClientMechanisms | mail.go:54-66 | "md5" gives CRAM-MD5, "plain" gives PLAIN, "custom" gives LOGIN, each with the configured credentials |
| Mail.Start | mail.go:193-195 | LOGIN starts with its own mechanism name |
| Mail.Next | mail.go:197-209 | with more, "Username:" and "Password:" are answered and anything else is the error "unkown fromServer"; without more, nil and nil |
| Mail.PasswordOnlyOnRequest | mail.go:197-209 | the password is sent only in answer to "Password:" while the server wants more |
| Mail.Exchange | mail.go:197-209 | one reply per challenge |
| Mail.LoginExchange | mail.go:193-206 | the initial response is the username, and the two challenges are answered with the username and then the password |
| Mail.ExchangeErrors | mail.go:198-206 | in a run of challenges, a reply is an error exactly when its challenge is neither "Username:" nor "Password:" |
| Mail.HeaderFields | mail.go:15-20 | the headers open with the From field |
| Mail.Headers | mail.go:15-20 | the filled-in headers open with "From: ", and end with the boundary, its closing quote and the blank line |
| Mail.HeaderAnnouncesBoundary | mail.go:75-80 | the boundary is the value of the Content-Type boundary parameter |
| Mail.VEventUid | mail.go:31-32 | the second property of an event is its UID with the given value |
| Mail.VEventNoSequence | mail.go:31-39 | no property of the event format is named SEQUENCE, whatever the values |
| Mail.EventUidValue | mail.go:98-99 | an outage's UID property holds its outage number printed with %d |
| Mail.EventUid | mail.go:99 | two events share a UID exactly when they share an outage number |
| Mail.NoSequenceProperty | mail.go:31-39 | no property of an outage's event is named SEQUENCE |
| Mail.EventOf | mail.go:91-122 | an outage yields no text exactly when its times do not parse, and otherwise a block that ends with the event footer |
| Mail.EventsOfOne | mail.go:91-96 | a single outage yields its block exactly when its times parse, and nothing otherwise |
| Mail.EventsAppend | mail.go:91-123 | the events of a concatenation are the events of each part, in order |
| Mail.EventsPrefix | mail.go:91-123 | the events of one more outage are those before it followed by its own |
| Mail.AttendeesAppend | mail.go:112-117 | the attendee lines of a concatenation are those of each part, in recipient order |
| Mail.AttendeesPrefix | mail.go:112-117 | the attendee lines of one more recipient are those before it followed by its own line |
| Mail.BccListsRecipients | mail.go:79 | the Bcc header splits back at ',' into exactly the recipients when no address has a comma |
| Mail.Message | mail.go:71-129 | the message starts with the headers, then the delimiter that opens the calendar part, and ends with the closing delimiter |
| Mail.MessageFraming | mail.go:86-125 | whatever the headers and events, the calendar part opens with the boundary's delimiter right after the headers, and the message ends with its closing delimiter |
| Mail.Compose | mail.go:71-134 | the text Do assembles is Message: the headers, the calendar header, the events of the parsable outages and the calendar end |
| Mail.AppendEvent | mail.go:91-123 | one pass of the outage loop appends that outage's block, or nothing when its times do not parse |
| Mail.WriteEvent | mail.go:98-122 | an outage's block is its event lines, one ATTENDEE line per recipient in order, then the footer |

## Left out

- `PlannedBlackOut` (barghman_client.go:57-115) is an HTTP client. Its
  answer for each bill id is a parameter: the records, or a fetch failure.
- `Mail.Send` (mail.go:136-183) dials, starts TLS and authenticates. A mail
  failure is the `mailFails` parameter of each record.
- `ParseConfig` (config.go:45-56) is TOML loading. The outer loop over the
  configured clients and the lookup of each client's SMTP settings
  (func.go:46-54) are not modelled. `RunBills` takes one client's bill ids
  and recipients, in the order `append(c.BillIDs, c.BillID)` gives them.
- `generateBoundary` (utils.go) draws random bytes. The boundary is a
  parameter of `Compose`. The rest of `utils.go` is not part of this model.
- `main.go` is not part of this model. It holds start-up and scheduling
  code.
- `CreateCachePath` (file.go:70-87) is file-system set-up. The cache
  directory text is a parameter.
- `time.Sleep` between bill ids (func.go:124) and every `slog` call do not
  change what the program computes.
- `time.Now` is a parameter: `now` for the mailer's modification times and
  the janitor's cutoff, `stamp` for DTSTAMP. The program reads the clock
  once per event. The model uses one reading for the whole message.
- The Persian calendar (`ptime.Date`, `ptime.New(t).Format`) belongs to a
  foreign library. It is a function inside `Location` and a function
  parameter `persianText`.
- `encoding/json` is an abstract `Codec`. `Lawful` states the laws the
  lemmas require: an encoding has the shape of one JSON object with no raw
  newline, it decodes to the same record, and trailing non-space bytes make
  decoding fail.
- `bufio.Scanner` is modelled by what it yields with `ScanLines`. Lines are
  split at newlines, a final carriage return is dropped, and a line of
  64 KiB or more stops the scan. An I/O error is the `readFails` parameter.
  Buffer growth is not modelled.
- `defer f.Close()` (func.go:76) closes files only when the job returns.
  File handles are not modelled.
- The janitor removes `cachePathDir + "/" + name`, while the mailer opens
  `cachePathDir + name`. The model names each file by one path and does not
  model path normalisation.
- The `WriteString` errors of `Mail.Do` cannot occur on a
  `strings.Builder`. The error paths are left out.
- func.go calls several things with a different shape from their
  declarations:
  - `NewMailClient` is used as if it returned one value (func.go:54);
  - `mail.Do(fcf, subject)` does not match `Do(data, recipients)`
    (func.go:114);
  - `c.SMTP`, `c.BillIDs` and `config.WaitTime` are not in config.go.

  The mailer's call to `Do` is modelled as a success or failure for the
  record (`mailFails`). `Compose` models `Do`'s text for a list of outages.
- Jobs.RunRecords: its contract only gives the number of outcomes. What each
  outcome is, is stated by `EachRecordReconciled`.
- Jobs.RunBills: its contract only gives the number of outcomes. What each
  one is, is stated by `RunBillsOutcome` and `FetchFailureSkipsOnlyThatBill`.
- Mail.Exchange: its contract only gives the number of replies. The replies
  themselves are stated by `ExchangeErrors` and `LoginExchange`.
- Clock.DateOnly: its contract gives only the characters and a minimum
  length. `DateOnlyReadsBack` states the year, month and day it prints, but
  only for years 0 to 9999. Outside that range Go's layout and `Pad` print
  a sign or more digits, which no lemma reads back.
- Lines.ScannedLines: it states what is collected only for files whose
  lines all fit the scanner's buffer. `LongLineStops` covers the others.
