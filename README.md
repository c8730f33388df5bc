# Birthday reminder — a Dafny model

This project models the logic of a birthday-reminder application. The application has a Spring backend and a React front-end. The model covers these parts:

- **Birthday date arithmetic** (`BirthdayEntity`, over the proleptic Gregorian calendar of `Dates`). This is the next occurrence of a birth date, the days until it, and the age. It includes the way `withYear` clamps Feb 29 to Feb 28.
- **Birthday service** (`BirthdayServiceModel`, `CsvImport`, `ICalendar`, `Analytics`). These are:
  - CRUD on the in-memory birthday table;
  - the quote-toggling CSV line splitter and the line-by-line CSV importer;
  - the first-match date parser;
  - the iCalendar writer, which writes the content lines of section 3.1 and the DATE values of section 3.3.4 of RFC 5545, and applies the four TEXT escapes of section 3.3.11;
  - the analytics aggregator.
- **Notification settings** (`NotificationSettingsEntity`, `NotificationSettingsServiceModel`). These are:
  - the codec of the comma-separated notification-days list;
  - `createDefault`;
  - create-if-missing `getSettings`;
  - the range-checked partial `updateSettings`.
- **Categories** (`CategoryEntity`, `CategoryRequestRules`, `CategoryServiceModel`). These are the four defaults, the request rules, and the per-user category table. Its names stay distinct ignoring case.
- **Birthday requests** (`BirthdayRequestRules`). These are the bean-validation rules other than `@Email`, and the `isActive` default.
- **Reminder dispatch** (`SchedulerModel`, `EmailServiceModel`). These are:
  - the parsing of the preferred hour;
  - the per-user skip/send decision and the sent/failed/skipped counters;
  - the subject line, the urgency colour and text, and the placeholder substitution of the e-mail body.
- **Wish generation** (`WishServiceModel`, `WishTemplates`). These are ordinals, relation words, tone filtering, and de-duplicated selection from a shuffled template list.
- **Front-end pages** (`PageViews`, `BirthdaysPageModel`, `DashboardPageModel`, `ImportDialog`, `SettingsPageModel`). These are:
  - filter-then-stable-sort and the day badges;
  - the list update after a delete;
  - the two CSV import dialogs;
  - notification-day toggling and the 12-hour time label;
  - the category list update.

State the source changes in place is modelled as classes whose methods carry `modifies` clauses. These are the service tables, the settings entity, the scheduler counters and the page state. Pure code is modelled as functions with lemmas about them. The clock (`today`, the current hour) and randomness (the shuffle) are parameters. So is the outcome of every call into code outside the model: the mail transport, the date formatters, and the API responses the pages await.

The repository's own description of itself treats the backend as an outside service. The backend's source is part of the repository, though, and this model follows that code.

Helper modules:
- `Wrappers`: Option and Result.
- `Text`: ASCII case mapping, trimming, search, replace, split and join.
- `Numbers`: decimal printing and parsing.
- `Seqs`: counting, filtering and stable sorting.
- `Users`: user ids.

## Model

| member | source | states |
|---|---|---|
| BirthdayEntity.UpcomingBirthday | backend/src/main/java/com/birthday/reminder/entity/Birthday.java:75-83 | the result is never before today, lies in this year or the next, keeps the birth month and day, and a 29 February birth date falls on the 29th only in a leap current year (28th otherwise) |
| BirthdayEntity.DaysUntilBirthday | backend/src/main/java/com/birthday/reminder/entity/Birthday.java:88-92 | the count lies in 0..365 and is 0 exactly when this year's anniversary is today |
| BirthdayEntity.UpcomingIsNextAnniversary | backend/src/main/java/com/birthday/reminder/entity/Birthday.java:75-83 | no anniversary on or after today comes before the upcoming birthday, and that date is itself an anniversary except for the 29 February birth date clamped to the 28th by `plusYears` in a leap year |
| BirthdayEntity.LeapDayExample | backend/src/main/java/com/birthday/reminder/entity/Birthday.java:77-80 | born 2000-02-29, on 2023-03-01 the upcoming birthday is 2024-02-28 (not the 29th) and is 364 days away |
| BirthdayEntity.AgeAtUpcoming | backend/src/main/java/com/birthday/reminder/entity/Birthday.java:68-70 | `calculateAge` is the age reached at the upcoming birthday when that is this year, and one less when it is next year |
| BirthdayEntity.DaysUntilOrdersUpcoming | backend/src/main/java/com/birthday/reminder/entity/Birthday.java:75-92 | ordering by days until the birthday is ordering by the upcoming date |
| Dates.WithYear | backend/src/main/java/com/birthday/reminder/entity/Birthday.java:77 | `withYear` yields a real date in the requested year and month, with the same day except 29 February becoming the 28th in a common year |
| Dates.EpochDayOrder | backend/src/main/java/com/birthday/reminder/entity/Birthday.java:79 | the day count orders dates exactly as `isBefore` does and tells distinct dates apart |
| Dates.PlusOneYearSpan | backend/src/main/java/com/birthday/reminder/entity/Birthday.java:80 | `plusYears(1)` moves a date forward by 365 or 366 days |
| Dates.NextDayCount | backend/src/main/java/com/birthday/reminder/service/BirthdayService.java:339 | `plusDays(1)` moves the day count by exactly one and yields a later date |
| Dates.PlusDaysCount | backend/src/main/java/com/birthday/reminder/service/BirthdayService.java:169 | `plusDays(n)` moves the day count by exactly `n` |
| Dates.YearLength | backend/src/main/java/com/birthday/reminder/entity/Birthday.java:91 | the closed-form count of days before a year advances by the length of that year (366 in Gregorian leap years) |
| CategoryEntity.CreateDefaults | backend/src/main/java/com/birthday/reminder/entity/Category.java:44-51 | four unsaved categories, all owned by the given user |
| CategoryEntity.DefaultsContent | backend/src/main/java/com/birthday/reminder/entity/Category.java:46-49 | the defaults are Family, Friends, Work and College, in that order, with their colours and icons |
| CategoryEntity.DefaultsDistinct | backend/src/main/java/com/birthday/reminder/entity/Category.java:46-49 | the default names are pairwise distinct ignoring case, so seeding them never clashes |
| BirthdayRequestRules.EmptyRequest | backend/src/main/java/com/birthday/reminder/dto/BirthdayRequest.java:19-37 | a new request has every field null except `isActive`, which is true |
| BirthdayRequestRules.RequiredFields | backend/src/main/java/com/birthday/reminder/dto/BirthdayRequest.java:21-26 | a request without a name or without a date is never valid, so the defaults alone never are |
| BirthdayRequestRules.CategoryAndActiveUnconstrained | backend/src/main/java/com/birthday/reminder/dto/BirthdayRequest.java:34-36 | the category id and the active flag never decide validity |
| BirthdayRequestRules.AcceptedRequest | backend/src/main/java/com/birthday/reminder/dto/BirthdayRequest.java:21-32 | a name of at most 100 chars that `trim` does not empty, a date and notes of at most 500 chars make a valid request |
| CategoryRequestRules.OptionalFields | backend/src/main/java/com/birthday/reminder/dto/CategoryRequest.java:18-26 | without colour and icon only the name decides validity (the pattern and size checks accept null) |
| CategoryRequestRules.NameRule | backend/src/main/java/com/birthday/reminder/dto/CategoryRequest.java:18-20 | a present name is accepted exactly when `trim` leaves something and it has at most 50 chars |
| CategoryRequestRules.DefaultsAreValidRequests | backend/src/main/java/com/birthday/reminder/entity/Category.java:46-49 | every default category also passes the request rules, colours matching `^#[0-9A-Fa-f]{6}$` |
| CategoryServiceModel.FindCategory | backend/src/main/java/com/birthday/reminder/service/CategoryService.java:44-45 | `findByIdAndUser`: a position holding that id and owner, or none exists in the table |
| CategoryServiceModel.CountOwnedZero | backend/src/main/java/com/birthday/reminder/service/CategoryService.java:115 | `countByUser` is zero exactly when no category belongs to the user |
| CategoryServiceModel.CategoryService.constructor | backend/src/main/java/com/birthday/reminder/service/CategoryService.java:24-26 | an empty category table satisfies the table invariant: positive distinct ids below the next id, names unique per user ignoring case |
| CategoryServiceModel.CategoryService.GetCategoryById | backend/src/main/java/com/birthday/reminder/service/CategoryService.java:43-47 | succeeds exactly when the user owns a category with that id, and returns it; otherwise `ResourceNotFoundException("Category", id)` |
| CategoryServiceModel.CategoryService.CreateCategory | backend/src/main/java/com/birthday/reminder/service/CategoryService.java:53-68 | a name the user already has in any case is rejected with the table unchanged; otherwise the category is appended with the next id, `#6366f1` and `folder` standing in for a missing colour and icon; the table invariant is kept |
| CategoryServiceModel.CategoryService.UpdateCategory | backend/src/main/java/com/birthday/reminder/service/CategoryService.java:74-95 | missing id: not found; a new name equal ignoring case to another of the user's names: rejected, table unchanged; otherwise only that entry changes, taking the new name and the colour and icon the request holds; a change of case alone is allowed; the invariant is kept |
| CategoryServiceModel.CategoryService.DeleteCategory | backend/src/main/java/com/birthday/reminder/service/CategoryService.java:101-108 | missing id: not found and unchanged; otherwise exactly that entry is removed, the others keep their order, the invariant is kept |
| CategoryServiceModel.CategoryService.CreateDefaultCategories | backend/src/main/java/com/birthday/reminder/service/CategoryService.java:114-120 | the four defaults are appended with consecutive ids only when the user has no category; otherwise nothing changes; afterwards the user always has one, so a second call changes nothing |
| CategoryServiceModel.RenameKeepsUnique | backend/src/main/java/com/birthday/reminder/service/CategoryService.java:79-84 | a rename that passes the duplicate check (same name ignoring case, or a name the user does not have) keeps names unique per user |
| CategoryServiceModel.RemoveKeepsValid | backend/src/main/java/com/birthday/reminder/service/CategoryService.java:106 | removing one category keeps ids distinct and in range and names unique per user |
| CategoryServiceModel.SeedKeepsValid | backend/src/main/java/com/birthday/reminder/service/CategoryService.java:115-117 | seeding the defaults for a user with no category keeps ids distinct and in range and names unique per user |
| CategoryServiceModel.AppendOwnKeepsValid | backend/src/main/java/com/birthday/reminder/service/CategoryService.java:117 | `saveAll` of records of one new owner with distinct names, under fresh ids, keeps the table invariant |
| CategoryServiceModel.CountOwnedAppend | backend/src/main/java/com/birthday/reminder/service/CategoryService.java:115 | the count of a user's categories adds up over two parts of the table |
| CategoryServiceModel.Numbered | backend/src/main/java/com/birthday/reminder/service/CategoryService.java:117 | `saveAll` gives the records consecutive ids, in order, and leaves them otherwise unchanged |
| BirthdayServiceModel.OwnedCategory | backend/src/main/java/com/birthday/reminder/service/BirthdayService.java:91-95 | the category is kept exactly when the request names one and the user owns a category with that id; it is then that id |
| BirthdayServiceModel.CategoryNameOfSpec | backend/src/main/java/com/birthday/reminder/service/BirthdayService.java:345-346 | a name is given exactly when the birthday has a category id held by some category in the table, and it is that category's name |
| BirthdayServiceModel.CategoryNamesSnoc | backend/src/main/java/com/birthday/reminder/service/BirthdayService.java:345-346 | one more birthday adds exactly its own category name at the end of the list of names |
| BirthdayServiceModel.IndexOf | backend/src/main/java/com/birthday/reminder/service/BirthdayService.java:78-79 | `findByIdAndUser`: a position holding that id and owner, or none exists |
| BirthdayServiceModel.RemoveAt | backend/src/main/java/com/birthday/reminder/service/BirthdayService.java:157 | removing one record keeps the ids positive, below the next id and distinct, and leaves no record with the removed id |
| BirthdayServiceModel.InWindowIffDays | backend/src/main/java/com/birthday/reminder/service/BirthdayService.java:169-175 | the date test "not before today and not after today plus `days`" holds exactly when the birthday is at most `days` days away |
| BirthdayServiceModel.UpcomingSpec | backend/src/main/java/com/birthday/reminder/service/BirthdayService.java:165-180 | `getUpcomingBirthdays`: a record is listed exactly when it is one of the user's active records at most `days` days away; the list is sorted by days until the birthday and holds no record more often than the table |
| BirthdayServiceModel.MonthlySpec | backend/src/main/java/com/birthday/reminder/service/BirthdayService.java:367-377 | twelve entries Jan..Dec in order, each counting the birthdays in that month; they add up to the total |
| BirthdayServiceModel.AgeSpec | backend/src/main/java/com/birthday/reminder/service/BirthdayService.java:409-424 | five brackets in insertion order, each counting the birthdays whose current age falls in it; they add up to the total |
| BirthdayServiceModel.CategorySpec | backend/src/main/java/com/birthday/reminder/service/BirthdayService.java:380-386 | the keys are "Uncategorized" and each category name in use; each key counts the birthdays under it |
| BirthdayServiceModel.WindowsSpec | backend/src/main/java/com/birthday/reminder/service/BirthdayService.java:390-406 | the 7-day count is at most the 30-day count, which is at most the 90-day count, which is at most the active count, which is at most the total |
| BirthdayServiceModel.OwnedCount | backend/src/main/java/com/birthday/reminder/service/BirthdayService.java:363 | the list analysed holds exactly the user's birthdays |
| BirthdayServiceModel.ImportAccounts | backend/src/main/java/com/birthday/reminder/service/BirthdayService.java:249-289 | every processed line adds exactly one imported record or one error |
| BirthdayServiceModel.ImportStep | backend/src/main/java/com/birthday/reminder/service/BirthdayService.java:235-290 | reading one more line adds its record or its error, or nothing when it is blank or the header |
| BirthdayServiceModel.ExportStep | backend/src/main/java/com/birthday/reminder/service/BirthdayService.java:325-350 | each pass of the export loop appends exactly that birthday's event lines, each ended by CRLF |
| BirthdayServiceModel.BirthdayService.constructor | backend/src/main/java/com/birthday/reminder/service/BirthdayService.java:34-35 | an empty table with ids starting at 1 satisfies the id invariant |
| BirthdayServiceModel.BirthdayService.Save | backend/src/main/java/com/birthday/reminder/service/BirthdayService.java:284 | `save` of a new record appends it under the next id, keeping ids distinct |
| BirthdayServiceModel.BirthdayService.GetBirthdayById | backend/src/main/java/com/birthday/reminder/service/BirthdayService.java:77-82 | succeeds with a stored record of that id and user, or fails with `ResourceNotFoundException("Birthday", id)` exactly when there is none |
| BirthdayServiceModel.BirthdayService.CreateBirthday | backend/src/main/java/com/birthday/reminder/service/BirthdayService.java:88-111 | appends one record under the next id with the request's name, date, email and notes, the category only when the user owns it, and `isActive` true unless given |
| BirthdayServiceModel.BirthdayService.UpdateBirthday | backend/src/main/java/com/birthday/reminder/service/BirthdayService.java:117-145 | not found and unchanged when the user has no such record; otherwise only that record changes: id and owner kept, fields replaced, category cleared unless owned, `isActive` kept unless given |
| BirthdayServiceModel.BirthdayService.DeleteBirthday | backend/src/main/java/com/birthday/reminder/service/BirthdayService.java:151-159 | not found and unchanged when there is no such record; otherwise exactly that record is removed and the others keep their order |
| BirthdayServiceModel.BirthdayService.ImportFromCsv | backend/src/main/java/com/birthday/reminder/service/BirthdayService.java:215-304 | the records of the file's data lines are saved in file order under consecutive ids; the errors are those lines' messages in file order; the counts are the list lengths |
| BirthdayServiceModel.BirthdayService.ImportLines | backend/src/main/java/com/birthday/reminder/service/BirthdayService.java:235-290 | every line is read in file order; each record built is appended to the table under the next id, each rejected line adds its message, and the table invariant holds throughout |
| BirthdayServiceModel.BirthdayService.ImportLine | backend/src/main/java/com/birthday/reminder/service/BirthdayService.java:236-289 | one pass of the loop keeps the imported list, the errors, the stored table and the header flag equal to what the lines read so far give |
| BirthdayServiceModel.BirthdayService.ReadLine | backend/src/main/java/com/birthday/reminder/service/BirthdayService.java:239-247 | a blank line, or a first non-blank line that mentions "name" or "date", is skipped; any other line is processed |
| BirthdayServiceModel.BirthdayService.KeepOutcome | backend/src/main/java/com/birthday/reminder/service/BirthdayService.java:284-285 | an imported line is saved and listed; a rejected line adds its message; the stored table grows by what was listed |
| BirthdayServiceModel.BirthdayService.ProcessDataLine | backend/src/main/java/com/birthday/reminder/service/BirthdayService.java:250-282 | the loop body up to the save computes the line's outcome as the CSV rules define it |
| BirthdayServiceModel.BirthdayService.ExportToICal | backend/src/main/java/com/birthday/reminder/service/BirthdayService.java:310-354 | the text is the calendar of the user's active birthdays in birth-date order, every content line ended by CRLF |
| BirthdayServiceModel.WriteCalendar | backend/src/main/java/com/birthday/reminder/service/BirthdayService.java:315-353 | the text is the six header lines, then the events of the given birthdays in their order with their category names, then the closing line, every line ended by CRLF |
| BirthdayServiceModel.WriteEvents | backend/src/main/java/com/birthday/reminder/service/BirthdayService.java:325-350 | after the lines already written come the event lines of every birthday in order, each with its own category name |
| BirthdayServiceModel.BirthdayService.GetAnalytics | backend/src/main/java/com/birthday/reminder/service/BirthdayService.java:360-427 | the figures are those the analysis defines over the user's birthdays in birth-date order; their meaning is given by the four Spec lemmas |
| BirthdayServiceModel.BirthdayService.CountByCategory | backend/src/main/java/com/birthday/reminder/service/BirthdayService.java:380-385 | the loop builds the category count map |
| BirthdayServiceModel.MonthlyCounts | backend/src/main/java/com/birthday/reminder/service/BirthdayService.java:367-376 | the loop builds the twelve month counts |
| BirthdayServiceModel.AgeBracketCounts | backend/src/main/java/com/birthday/reminder/service/BirthdayService.java:409-423 | the loop builds the five bracket counts |
| BirthdayServiceModel.WriteEvent | backend/src/main/java/com/birthday/reminder/service/BirthdayService.java:336-349 | the event block is the event's lines, each followed by CRLF |
| BirthdayServiceModel.WriteLines | backend/src/main/java/com/birthday/reminder/service/BirthdayService.java:316-321 | appending lines one by one gives each line followed by CRLF |
| Analytics.AgeBracket | backend/src/main/java/com/birthday/reminder/service/BirthdayService.java:418-422 | the bracket is the first of "at most 18, 30, 50, 70" the age meets, and the last bracket otherwise |
| Analytics.TallyCount | backend/src/main/java/com/birthday/reminder/service/BirthdayService.java:372-376 | counting by increments gives, for each key, the number of elements with that key |
| Analytics.DistributionsSum | backend/src/main/java/com/birthday/reminder/service/BirthdayService.java:367-424 | the month counts and the bracket counts each add up to the number of birthdays |
| Analytics.CategoryCountsSpec | backend/src/main/java/com/birthday/reminder/service/BirthdayService.java:380-385 | a name is a key exactly when it is "Uncategorized" or occurs, and its count is its number of occurrences |
| Analytics.UpcomingNested | backend/src/main/java/com/birthday/reminder/service/BirthdayService.java:390-406 | the three windows nest within the active count, which is within the total |
| Analytics.YearWindowCountsAllActive | backend/src/main/java/com/birthday/reminder/service/BirthdayService.java:390-398 | a window of at least 365 days counts every active birthday |
| BirthdayServiceModel.WithIds | backend/src/main/java/com/birthday/reminder/service/BirthdayService.java:284 | the records saved one after another receive consecutive ids, in order, and are otherwise unchanged |
| CsvImport.CsvFields | backend/src/main/java/com/birthday/reminder/service/BirthdayService.java:442-460 | `parseCsvLine` always yields at least one field |
| CsvImport.ParseCsvLine | backend/src/main/java/com/birthday/reminder/service/BirthdayService.java:442-460 | the character loop yields the fields `CsvFields` defines: split at commas outside double quotes, quotes dropped |
| CsvImport.WithoutQuotes | backend/src/main/java/com/birthday/reminder/service/BirthdayService.java:448-449 | the quote characters never reach a field |
| CsvImport.CsvFieldsJoin | backend/src/main/java/com/birthday/reminder/service/BirthdayService.java:442-460 | joining the fields with "," gives back the line without its quotes: nothing else is lost or added |
| CsvImport.CsvFieldsCount | backend/src/main/java/com/birthday/reminder/service/BirthdayService.java:450-457 | there is exactly one field more than there are commas outside quotes |
| CsvImport.ParseCsvLineProperties | backend/src/main/java/com/birthday/reminder/service/BirthdayService.java:442-460 | both facts above for a whole line, starting outside quotes |
| CsvImport.UnbalancedQuote | backend/src/main/java/com/birthday/reminder/service/BirthdayService.java:448-456 | an opening quote never closed is no error: the rest of the line is one field |
| CsvImport.InsideQuotes | backend/src/main/java/com/birthday/reminder/service/BirthdayService.java:448-456 | inside quotes, commas are kept as field text |
| CsvImport.FirstSuccessSpec | backend/src/main/java/com/birthday/reminder/service/BirthdayService.java:431-440 | `parseDate` fails exactly when every formatter fails, and otherwise returns the first formatter's result that succeeds |
| CsvImport.ParseDate | backend/src/main/java/com/birthday/reminder/service/BirthdayService.java:431-440 | the loop over the formatters returns the first success, or null |
| CsvImport.SelectSound | backend/src/main/java/com/birthday/reminder/service/BirthdayService.java:235-247 | every processed line is a line of the file under its physical number, neither blank nor the header |
| CsvImport.SelectComplete | backend/src/main/java/com/birthday/reminder/service/BirthdayService.java:235-247 | every non-blank line that is not the header is processed |
| CsvImport.SelectIncreasing | backend/src/main/java/com/birthday/reminder/service/BirthdayService.java:235-236 | the processed lines come in file order |
| CsvImport.SelectAppend | backend/src/main/java/com/birthday/reminder/service/BirthdayService.java:235-247 | reading a file in two parts: the header is still expected after the first part exactly when it was all blank |
| CsvImport.DataLinesSpec | backend/src/main/java/com/birthday/reminder/service/BirthdayService.java:235-247 | the processed lines are exactly the non-blank lines other than a first non-blank line mentioning "name" or "date", numbered from 1, in file order |
| CsvImport.DataLinesSnoc | backend/src/main/java/com/birthday/reminder/service/BirthdayService.java:235-247 | one more line is processed exactly when it is not blank and not the header |
| CsvImport.OnlyFirstLineIsHeader | backend/src/main/java/com/birthday/reminder/service/BirthdayService.java:242-247 | only the first non-blank line can be skipped as a header; a later line mentioning "name" is data |
| CsvImport.NonEmpty | backend/src/main/java/com/birthday/reminder/service/BirthdayService.java:278-279 | an absent or empty email or notes column becomes null; a present non-empty one is kept unchanged |
| CsvImport.FindCategory | backend/src/main/java/com/birthday/reminder/service/BirthdayService.java:227-233 | a category found has the user as owner and the lower-cased name as key; none found means no such category |
| CsvImport.FindCategoryUnique | backend/src/main/java/com/birthday/reminder/service/BirthdayService.java:227-233 | with names distinct ignoring case within a user, the category found for a lower-cased name is the one category of that user with that name |
| CsvImport.Outcomes | backend/src/main/java/com/birthday/reminder/service/BirthdayService.java:235-290 | one outcome per processed line, in order |
| CsvImport.OneEntryPerLine | backend/src/main/java/com/birthday/reminder/service/BirthdayService.java:249-289 | each outcome adds exactly one record or one error |
| CsvImport.ProcessLineShape | backend/src/main/java/com/birthday/reminder/service/BirthdayService.java:249-285 | a rejection is "Line n: " plus one of the three messages; an imported record belongs to the user, is active and has a trimmed, non-empty name, and its line had at least two fields |
| CsvImport.RejectionReasons | backend/src/main/java/com/birthday/reminder/service/BirthdayService.java:250-266 | a line without a comma outside quotes, a blank name, or a date no formatter accepts is rejected with that reason, checked in that order |
| ICalendar.EscapeTextIsEscapeEach | backend/src/main/java/com/birthday/reminder/service/BirthdayService.java:466-471 | the four chained replacements escape each character on its own: a later one never rewrites what an earlier one produced |
| ICalendar.StepsChar | backend/src/main/java/com/birthday/reminder/service/BirthdayService.java:467-470 | one character goes through the four replacements to exactly its own escape |
| ICalendar.EscapeRoundTrip | backend/src/main/java/com/birthday/reminder/service/BirthdayService.java:466-471 | escaped text is well formed, holds no line break, and unescapes back to the original |
| ICalendar.EscapeTextProperties | backend/src/main/java/com/birthday/reminder/service/BirthdayService.java:466-471 | `escapeICalText` gives well-formed TEXT without line breaks that reads back as its input, using the four escapes of section 3.3.11 of RFC 5545 |
| ICalendar.SafeTextUnchanged | backend/src/main/java/com/birthday/reminder/service/BirthdayService.java:466-471 | text without a backslash, comma, semicolon or newline is written as it is |
| ICalendar.CarriageReturnKept | backend/src/main/java/com/birthday/reminder/service/BirthdayService.java:466-471 | a carriage return is not escaped: it reaches the calendar as it is |
| ICalendar.NotesNewlineShownLiterally | backend/src/main/java/com/birthday/reminder/service/BirthdayService.java:333 | a newline in the notes becomes backslash-n, which is then escaped again: a reader gets a backslash and an n, not a line break |
| ICalendar.FormatDateShape | backend/src/main/java/com/birthday/reminder/service/BirthdayService.java:462-464 | for years 0..9999, eight digits that read back as year, month and day |
| ICalendar.CrlfAppend | backend/src/main/java/com/birthday/reminder/service/BirthdayService.java:316-352 | appending lines with their CRLF is compositional |
| ICalendar.EventOf | backend/src/main/java/com/birthday/reminder/service/BirthdayService.java:336-349 | an event has nine lines, or ten when there is a category |
| ICalendar.EventLines | backend/src/main/java/com/birthday/reminder/service/BirthdayService.java:326-349 | an event has nine lines, or ten when there is a category |
| ICalendar.EventDates | backend/src/main/java/com/birthday/reminder/service/BirthdayService.java:326-339 | BEGIN first, END last; DTSTART is the upcoming birthday, never before today; DTEND is the next day: a one-day all-day event |
| ICalendar.EventTextEscaped | backend/src/main/java/com/birthday/reminder/service/BirthdayService.java:330-341 | the summary is the escaped "'s Birthday" text; summary and description are well-formed escaped TEXT |
| ICalendar.EventsSnoc | backend/src/main/java/com/birthday/reminder/service/BirthdayService.java:325-350 | one more birthday appends exactly its event |
| ICalendar.CloseCalendar | backend/src/main/java/com/birthday/reminder/service/BirthdayService.java:352 | the closing line completes the calendar |
| ICalendar.OneEventPerBirthday | backend/src/main/java/com/birthday/reminder/service/BirthdayService.java:325-350 | there is exactly one BEGIN:VEVENT per exported birthday |
| ICalendar.CalendarShape | backend/src/main/java/com/birthday/reminder/service/BirthdayService.java:316-352 | the calendar starts with BEGIN:VCALENDAR, ends with END:VCALENDAR and has one event per birthday |
| ICalendar.CrlfEnds | backend/src/main/java/com/birthday/reminder/service/BirthdayService.java:316-352 | the text starts with the first line and ends with the last line and CRLF |
| NotificationSettingsEntity.Sorted | backend/src/main/java/com/birthday/reminder/entity/NotificationSettings.java:60 | `sorted()`: ascending order, the same elements with their multiplicities |
| NotificationSettingsEntity.TrimAll | backend/src/main/java/com/birthday/reminder/entity/NotificationSettings.java:57 | each token is trimmed, one for one |
| NotificationSettingsEntity.ParseAll | backend/src/main/java/com/birthday/reminder/entity/NotificationSettings.java:59 | parsing succeeds exactly when every token is an `int`, and then gives each token's value in order |
| NotificationSettingsEntity.Strings | backend/src/main/java/com/birthday/reminder/entity/NotificationSettings.java:73 | each number printed, one for one |
| NotificationSettingsEntity.DecodeDays | backend/src/main/java/com/birthday/reminder/entity/NotificationSettings.java:52-62 | `getNotificationDaysList`: a decoded list is sorted ascending |
| NotificationSettingsEntity.ShouldNotifyOnDay | backend/src/main/java/com/birthday/reminder/entity/NotificationSettings.java:81-83 | defined exactly when the days decode, and then true exactly when the day is one of them |
| NotificationSettingsEntity.ParseAllStrings | backend/src/main/java/com/birthday/reminder/entity/NotificationSettings.java:59-73 | printing 32-bit numbers and parsing them back gives the same numbers |
| NotificationSettingsEntity.DecodeJoin | backend/src/main/java/com/birthday/reminder/entity/NotificationSettings.java:56-61 | joining comma-free, untrimmable tokens and decoding them parses exactly those tokens, then sorts |
| NotificationSettingsEntity.DecodeEncode | backend/src/main/java/com/birthday/reminder/entity/NotificationSettings.java:52-76 | storing 32-bit days and reading them back gives them sorted ascending with duplicates kept; no days read back as `[1]` |
| NotificationSettingsEntity.DecodeSortedDays | backend/src/main/java/com/birthday/reminder/entity/NotificationSettings.java:56-74 | printing sorted days, joining them with commas and decoding gives the sorted days |
| NotificationSettingsEntity.DefaultDaysList | backend/src/main/java/com/birthday/reminder/entity/NotificationSettings.java:35 | the default `"7,3,1"` reads as `[1, 3, 7]` |
| NotificationSettingsEntity.SingleDayList | backend/src/main/java/com/birthday/reminder/entity/NotificationSettings.java:69 | `"1"`, stored for no days, reads as `[1]` |
| NotificationSettingsEntity.NotifyOnStoredDays | backend/src/main/java/com/birthday/reminder/entity/NotificationSettings.java:67-83 | after storing a non-empty list of days, a reminder is due exactly on those days |
| NotificationSettingsEntity.NotificationSettings.CreateDefault | backend/src/main/java/com/birthday/reminder/entity/NotificationSettings.java:88-96 | days `"7,3,1"`, e-mail on, the default template, `08:00`, owned by the user |
| NotificationSettingsEntity.NotificationSettings.SetNotificationDaysList | backend/src/main/java/com/birthday/reminder/entity/NotificationSettings.java:67-76 | overwrites the stored days with their encoding and changes no other field |
| NotificationSettingsServiceModel.ApplyEmpty | backend/src/main/java/com/birthday/reminder/service/NotificationSettingsService.java:55-73 | a request with every field null changes nothing |
| NotificationSettingsServiceModel.ApplyIdempotent | backend/src/main/java/com/birthday/reminder/service/NotificationSettingsService.java:55-73 | sending the same update twice has the effect of sending it once |
| NotificationSettingsServiceModel.AppliedDaysDecode | backend/src/main/java/com/birthday/reminder/service/NotificationSettingsService.java:55-63 | after an accepted update the stored days decode again: to the requested days sorted, to `[1]` for an empty list, else as before |
| NotificationSettingsServiceModel.DefaultsUpdatedDecode | backend/src/main/java/com/birthday/reminder/service/NotificationSettingsService.java:51-63 | the defaults with an accepted update applied hold days that decode |
| NotificationSettingsServiceModel.NotificationSettingsService.constructor | backend/src/main/java/com/birthday/reminder/service/NotificationSettingsService.java:24 | an empty store satisfies the store invariant |
| NotificationSettingsServiceModel.NotificationSettingsService.FromEntity | backend/src/main/java/com/birthday/reminder/service/NotificationSettingsService.java:41 | the response carries the record's id and fields, its days decoded |
| NotificationSettingsServiceModel.NotificationSettingsService.Insert | backend/src/main/java/com/birthday/reminder/service/NotificationSettingsService.java:38 | `save` of a new record gives it the next id and files it under its owner, fields untouched |
| NotificationSettingsServiceModel.NotificationSettingsService.GetSettings | backend/src/main/java/com/birthday/reminder/service/NotificationSettingsService.java:31-42 | returns the user's record; when there is none, the defaults are created, saved under the next id and returned; a second call changes nothing |
| NotificationSettingsServiceModel.NotificationSettingsService.UpdateSettings | backend/src/main/java/com/birthday/reminder/service/NotificationSettingsService.java:48-79 | a day outside 0..30 is rejected with "Notification days must be between 0 and 30" and nothing changes; otherwise the fields the request holds replace the stored ones (on fresh defaults when the user has none, then saved) and the rest stay |
| NotificationSettingsServiceModel.NotificationSettingsService.UpdateStored | backend/src/main/java/com/birthday/reminder/service/NotificationSettingsService.java:51-78 | an existing record is updated in place; its id is kept |
| NotificationSettingsServiceModel.NotificationSettingsService.UpdateNew | backend/src/main/java/com/birthday/reminder/service/NotificationSettingsService.java:51-78 | a user without a record gets the defaults with the update applied, saved under the next id |
| NotificationSettingsServiceModel.NotificationSettingsService.NewSettings | backend/src/main/java/com/birthday/reminder/service/NotificationSettingsService.java:52-73 | fresh defaults with the update applied, holding days that decode |
| NotificationSettingsServiceModel.ApplyRequest | backend/src/main/java/com/birthday/reminder/service/NotificationSettingsService.java:55-73 | each field the request holds replaces the stored one; id and owner are kept |
| NotificationSettingsServiceModel.CheckDays | backend/src/main/java/com/birthday/reminder/service/NotificationSettingsService.java:57-61 | the loop accepts exactly when every day lies in 0..30 |
| SchedulerModel.ParseTimeHour | backend/src/main/java/com/birthday/reminder/scheduler/BirthdayNotificationScheduler.java:133-134 | `LocalTime.parse` in ISO form accepts only a two-digit hour 00..23 first, and the hour is the value of those two digits |
| SchedulerModel.ParseNotificationHour | backend/src/main/java/com/birthday/reminder/scheduler/BirthdayNotificationScheduler.java:128-139 | a null, empty or unparsable time gives 8; a parsable one gives its hour; always 0..23 |
| SchedulerModel.HourOfFormattedTime | backend/src/main/java/com/birthday/reminder/scheduler/BirthdayNotificationScheduler.java:128-134 | a time written `HH:mm` gives back its hour |
| SchedulerModel.SingleDigitHourFallsBack | backend/src/main/java/com/birthday/reminder/scheduler/BirthdayNotificationScheduler.java:133-137 | "9:30" does not parse, so it falls back to 8 |
| SchedulerModel.DefaultTimeHour | backend/src/main/java/com/birthday/reminder/scheduler/BirthdayNotificationScheduler.java:128-134 | the default "08:00" gives 8 |
| SchedulerModel.Due | backend/src/main/java/com/birthday/reminder/scheduler/BirthdayNotificationScheduler.java:101-105 | a birthday is due exactly when its days-until count is one of the notification days |
| SchedulerModel.DueInOrder | backend/src/main/java/com/birthday/reminder/scheduler/BirthdayNotificationScheduler.java:101-105 | the due birthdays are the user's birthdays filtered by that test, in their original order |
| SchedulerModel.Mails | backend/src/main/java/com/birthday/reminder/scheduler/BirthdayNotificationScheduler.java:101-107 | one reminder per due birthday, in order: the i-th is the reminder for the i-th due birthday, with that birthday's own days-until count |
| SchedulerModel.Counters.constructor | backend/src/main/java/com/birthday/reminder/scheduler/BirthdayNotificationScheduler.java:51-53 | the three counters start at zero |
| SchedulerModel.ProcessUserNotifications | backend/src/main/java/com/birthday/reminder/scheduler/BirthdayNotificationScheduler.java:74-122 | the mails handed to the transport and the counter changes are those of the user's outcome: nothing without settings or with email off, one skip outside the hour, else one send per due birthday, in ascending birth-date order, counted as sent or failed |
| SchedulerModel.MailAtPreferredHour | backend/src/main/java/com/birthday/reminder/scheduler/BirthdayNotificationScheduler.java:92-121 | at the preferred hour, the due reminders are sent; each counts as sent or as failed; no skip is counted |
| SchedulerModel.MailedAtHour | backend/src/main/java/com/birthday/reminder/scheduler/BirthdayNotificationScheduler.java:92-121 | at the preferred hour with decodable days, the user's mails are the due birthdays' reminders |
| SchedulerModel.SendDue | backend/src/main/java/com/birthday/reminder/scheduler/BirthdayNotificationScheduler.java:101-121 | the loop sends one reminder per due birthday in list order; the sent count grows by those the transport accepts and the failed count by the rest |
| SchedulerModel.SendIfDue | backend/src/main/java/com/birthday/reminder/scheduler/BirthdayNotificationScheduler.java:101-119 | a birthday whose days-until count is a notification day has its reminder sent and appended to the mails; the sent or failed count grows by one accordingly; any other birthday changes nothing |
| SchedulerModel.SendOne | backend/src/main/java/com/birthday/reminder/scheduler/BirthdayNotificationScheduler.java:106-119 | one attempt: sent when the transport accepts it, failed otherwise |
| SchedulerModel.SendBirthdayNotifications | backend/src/main/java/com/birthday/reminder/scheduler/BirthdayNotificationScheduler.java:45-68 | the final counters add up every user's outcome, and the mails are all users' mails in user order |
| SchedulerModel.ActiveBirthdaysSpec | backend/src/main/java/com/birthday/reminder/repository/BirthdayRepository.java:34 | the user's active birthdays come earliest birth date first, each as often as it is in the table and active, none that is inactive |
| SchedulerModel.DueByBirthDate | backend/src/main/java/com/birthday/reminder/scheduler/BirthdayNotificationScheduler.java:96-105 | the due birthdays, and so the reminders, go out in ascending birth-date order |
| SchedulerModel.DueExactly | backend/src/main/java/com/birthday/reminder/scheduler/BirthdayNotificationScheduler.java:96-105 | a birthday is due exactly when it is the user's, active, and its days-until count is a notification day |
| SchedulerModel.SkipRule | backend/src/main/java/com/birthday/reminder/scheduler/BirthdayNotificationScheduler.java:78-90 | a user is skipped exactly when settings exist, email is on and the hour is not theirs; a skipped user gets no mail |
| SchedulerModel.EveryAttemptCounted | backend/src/main/java/com/birthday/reminder/scheduler/BirthdayNotificationScheduler.java:101-121 | every attempted mail counts once: sent plus failed is the number of mails, and sent is the number accepted |
| SchedulerModel.TotalTallyAppend | backend/src/main/java/com/birthday/reminder/scheduler/BirthdayNotificationScheduler.java:58-64 | the counters of a run add up over two groups of users |
| SchedulerModel.FailingUserIsolated | backend/src/main/java/com/birthday/reminder/scheduler/BirthdayNotificationScheduler.java:58-64 | a user whose stored days cannot be decoded throws; the run over the others is exactly as if that user were absent |
| SchedulerModel.FlatMapAppend | backend/src/main/java/com/birthday/reminder/scheduler/BirthdayNotificationScheduler.java:58-64 | the mails of two groups of users are concatenated |
| EmailServiceModel.SubjectKind | backend/src/main/java/com/birthday/reminder/service/EmailService.java:67-75 | the subject starts with the TODAY wording exactly on the day, and with the TOMORROW wording exactly the day before |
| EmailServiceModel.SubjectInjective | backend/src/main/java/com/birthday/reminder/service/EmailService.java:67-75 | two subjects are equal only for the same friend name and the same number of days |
| EmailServiceModel.LeadHead | backend/src/main/java/com/birthday/reminder/service/EmailService.java:68-73 | only the today and tomorrow leads start with a T |
| EmailServiceModel.LeadUnique | backend/src/main/java/com/birthday/reminder/service/EmailService.java:68-73 | the wording before the name determines the number of days |
| EmailServiceModel.UrgencyColor | backend/src/main/java/com/birthday/reminder/service/EmailService.java:133 | red up to one day ahead, amber for two and three days, blue beyond |
| EmailServiceModel.UrgencyEscalates | backend/src/main/java/com/birthday/reminder/service/EmailService.java:133 | the banner never gets calmer as the birthday gets closer |
| EmailServiceModel.UrgencyText | backend/src/main/java/com/birthday/reminder/service/EmailService.java:134 | "TODAY!" exactly on the day, "TOMORROW!" exactly the day before, otherwise the days to go |
| EmailServiceModel.BannerMatchesSubject | backend/src/main/java/com/birthday/reminder/service/EmailService.java:67-75 | the banner and the subject agree on whether the birthday is today or tomorrow |
| EmailServiceModel.LongDate | backend/src/main/java/com/birthday/reminder/service/EmailService.java:35 | the formatted date holds no `{`, so it cannot introduce a placeholder |
| EmailServiceModel.BodyLiteral | backend/src/main/java/com/birthday/reminder/service/EmailService.java:119-123 | a template without a `{` is sent as it is |
| EmailServiceModel.NameSubstitutedFirst | backend/src/main/java/com/birthday/reminder/service/EmailService.java:119-123 | `{friendName}` is replaced first, so a friend called "{age}" ends up as the age |
| EmailServiceModel.DefaultBody | backend/src/main/java/com/birthday/reminder/service/EmailService.java:119-123 | the default template reads "Hey! Just a reminder that NAME's birthday is coming up on DATE. They will be turning AGE years old!" once filled in |
| EmailServiceModel.FillThree | backend/src/main/java/com/birthday/reminder/service/EmailService.java:119-123 | a template holding the name, date and age placeholders once each gets exactly those values, in place |
| EmailServiceModel.ReminderFor | backend/src/main/java/com/birthday/reminder/service/EmailService.java:52-53 | the mail goes to the user; it is titled TODAY exactly on the day and TOMORROW exactly the day before, red up to one day ahead, "TODAY!" exactly on the day, and a template without a `{` is its message unchanged |
| EmailServiceModel.ReminderMessage | backend/src/main/java/com/birthday/reminder/service/EmailService.java:115-123 | for a template holding the name, date and age placeholders once each, the message carries the friend's name, the long form of the coming birthday and the age the friend turns, in those places |
| EmailServiceModel.SendBirthdayReminderNow | backend/src/main/java/com/birthday/reminder/service/EmailService.java:40-62 | true exactly when the transport accepts the mail, a failure being reported rather than thrown; the mail is titled TODAY, with the "TODAY!" banner, exactly when today is the birthday, and is then red |
| WishServiceModel.Ordinal | backend/src/main/java/com/birthday/reminder/service/WishService.java:82-92 | the number followed by "th" for 11 to 13 and for negative numbers, otherwise by "st", "nd", "rd" or "th" after its last digit |
| WishServiceModel.RelationWord | backend/src/main/java/com/birthday/reminder/service/WishService.java:97-105 | "family member" exactly for "family" and "colleague" exactly for "work", ignoring case; "friend" for everything else |
| WishServiceModel.RelationIgnoresCase | backend/src/main/java/com/birthday/reminder/service/WishService.java:98 | category names that differ only in case get the same relation word |
| WishServiceModel.FirstName | backend/src/main/java/com/birthday/reminder/service/WishService.java:29 | the first name is the longest space-free prefix of the name, followed by a space or the end |
| WishServiceModel.RelationGuardRedundant | backend/src/main/java/com/birthday/reminder/service/WishService.java:72-74 | the `contains` test before the `{relation}` replacement changes nothing: replacing alone gives the same text |
| WishServiceModel.PersonalizeLiteral | backend/src/main/java/com/birthday/reminder/service/WishService.java:63-77 | a template without a `{` comes back as it is |
| WishServiceModel.CategoryTemplates | backend/src/main/java/com/birthday/reminder/service/WishService.java:170-225 | a category other than family, friends, work or college (in any case) adds no templates |
| WishServiceModel.CategoryTemplateCounts | backend/src/main/java/com/birthday/reminder/service/WishService.java:170-225 | the extra templates number 6 for family, 7 for friends, 6 for work, 6 for college and 0 otherwise |
| WishServiceModel.KeepTone | backend/src/main/java/com/birthday/reminder/service/WishService.java:122 | every template kept has the requested tone or "neutral", and every such template is kept |
| WishServiceModel.GetTemplates | backend/src/main/java/com/birthday/reminder/service/WishService.java:110-126 | the universal and category templates, filtered by the lower-cased tone unless the tone is null or empty |
| WishServiceModel.RemoveOtherTones | backend/src/main/java/com/birthday/reminder/service/WishService.java:122 | the in-place `removeIf` keeps exactly the templates the tone filter keeps, in order |
| WishServiceModel.Dedup | backend/src/main/java/com/birthday/reminder/service/WishService.java:42-53 | no two kept templates share a text, each comes from the input, and every text of the input is kept once |
| WishServiceModel.DedupOfDistinct | backend/src/main/java/com/birthday/reminder/service/WishService.java:49-53 | without repeated texts nothing is dropped |
| WishServiceModel.DedupPrefix | backend/src/main/java/com/birthday/reminder/service/WishService.java:44-54 | deduplicating a prefix gives a prefix of the deduplicated whole |
| WishServiceModel.Take | backend/src/main/java/com/birthday/reminder/service/WishService.java:45 | at most `count` elements, a prefix of the input |
| WishServiceModel.PersonalizeAll | backend/src/main/java/com/birthday/reminder/service/WishService.java:47 | one personalised wish per template, in order |
| WishServiceModel.GenerateWishes | backend/src/main/java/com/birthday/reminder/service/WishService.java:27-58 | the wishes are the first `count` distinct-text templates of the shuffled list, personalised with the first name, full name, coming age and the category ("friend" when there is none) |
| WishServiceModel.SelectWishes | backend/src/main/java/com/birthday/reminder/service/WishService.java:41-57 | the loop, stopping at `count` wishes and skipping used texts, picks the first `count` distinct-text templates in order |
| WishServiceModel.SelectionEnd | backend/src/main/java/com/birthday/reminder/service/WishService.java:44-45 | where the loop stops, the templates chosen are the first `count` distinct ones |
| WishServiceModel.Selection | backend/src/main/java/com/birthday/reminder/service/WishService.java:41-57 | `min(count, n)` wishes for `n` distinct texts, none repeated, all from the templates offered; none when `count` is not positive |
| WishServiceModel.DistinctSelection | backend/src/main/java/com/birthday/reminder/service/WishService.java:41-57 | with distinct texts, the wishes follow the first `count` templates of the shuffled order |
| WishServiceModel.SelectionMatchesTone | backend/src/main/java/com/birthday/reminder/service/WishService.java:120-123 | under a tone, every wish comes from a template with that tone, lower-cased, or the neutral one |
| PageViews.DaysText | frontend/src/pages/Birthdays.jsx:115-119 | "Today!" at 0, "Tomorrow" at 1, otherwise the decimal day count followed by " days" |
| PageViews.DaysTextInjective | frontend/src/pages/Birthdays.jsx:114-120 | different day counts get different badge texts |
| BirthdaysPageModel.StepsKeepVisible | frontend/src/pages/Birthdays.jsx:58-76 | the three filter steps, each applied only when its control is set, keep exactly the records every control passes, in order |
| BirthdaysPageModel.SearchStep | frontend/src/pages/Birthdays.jsx:62-66 | the search step keeps exactly the records whose lower-cased name contains the lower-cased query; an empty query keeps all |
| BirthdaysPageModel.CategoryStep | frontend/src/pages/Birthdays.jsx:69-71 | the category step keeps exactly the records in the selected category; no selection (or 0) keeps all |
| BirthdaysPageModel.TimeStep | frontend/src/pages/Birthdays.jsx:74-76 | 'upcoming' keeps exactly the records at most 30 days away; 'all' keeps all |
| BirthdaysPageModel.FilteredSortedSubset | frontend/src/pages/Birthdays.jsx:58-81 | the list shown is sorted soonest first and holds nothing the page did not load |
| BirthdaysPageModel.FilteredExactly | frontend/src/pages/Birthdays.jsx:58-81 | a record shows up as often as it was loaded when it passes every filter, and never otherwise |
| BirthdaysPageModel.NoFilterPermutation | frontend/src/pages/Birthdays.jsx:58-81 | with no search, no category and 'all', every loaded record is shown |
| BirthdaysPageModel.FilteredStable | frontend/src/pages/Birthdays.jsx:79 | records with the same day count keep their loaded order |
| BirthdaysPageModel.FilteredIdempotent | frontend/src/pages/Birthdays.jsx:58-81 | filtering the shown list again with the same controls gives the same list |
| BirthdaysPageModel.WithoutIdExactly | frontend/src/pages/Birthdays.jsx:87 | a delete drops every record with that id and keeps each other record as often as it was there |
| BirthdaysPageModel.WithoutIdKeepsOrder | frontend/src/pages/Birthdays.jsx:87 | the remaining records keep their order |
| BirthdaysPageModel.GetDaysLabel | frontend/src/pages/Birthdays.jsx:114-120 | the badge text is "Today!", "Tomorrow" or "N days" |
| BirthdaysPageModel.LabelRanges | frontend/src/pages/Birthdays.jsx:117-119 | past "Tomorrow", the class is green exactly up to 7 days, yellow exactly from 8 to 30, grey beyond |
| BirthdaysPageModel.BirthdaysPage.constructor | frontend/src/pages/Birthdays.jsx:23-30 | an empty list, no search, 'all', no category, no confirmation open |
| BirthdaysPageModel.BirthdaysPage.FilterBirthdays | frontend/src/pages/Birthdays.jsx:58-82 | the filtered list becomes the loaded records passing every set control, soonest first; nothing else changes |
| BirthdaysPageModel.BirthdaysPage.HandleDelete | frontend/src/pages/Birthdays.jsx:84-94 | after a successful delete the records with that id leave the list; either way the confirmation closes |
| BirthdaysPageModel.BirthdaysPage.OpenImportModal | frontend/src/pages/Birthdays.jsx:358 | the Birthdays page opens the lenient dialog, with no file and no result |
| ImportDialog.StrictIsStricter | frontend/src/pages/Dashboard.jsx:263 | the Dashboard takes a file exactly when its media type is `text/csv`; the Birthdays page also when its name ends in `.csv`; so every file the Dashboard takes, the Birthdays page takes |
| ImportDialog.CsvNameWithOtherType | frontend/src/pages/Birthdays.jsx:380 | a `.csv` file reported under another media type is taken on the Birthdays page only |
| ImportDialog.ImportModal.constructor | frontend/src/pages/Birthdays.jsx:374-376 | no file, not importing, no result |
| ImportDialog.ImportModal.HandleFileChange | frontend/src/pages/Birthdays.jsx:378-385 | a picked file that passes the test becomes the chosen file; otherwise the error is shown and the chosen file stays |
| ImportDialog.ImportModal.HandleImport | frontend/src/pages/Birthdays.jsx:387-407 | nothing is posted without a file; otherwise any answer is kept as the result, the page reloads only when something was imported, and importing ends either way |
| DashboardPageModel.FirstTen | frontend/src/pages/Dashboard.jsx:53 | the first ten records, or all when there are fewer |
| DashboardPageModel.FirstTenAreSoonest | frontend/src/pages/Dashboard.jsx:51-53 | on the server's soonest-first list, no record left out comes before a record shown |
| DashboardPageModel.GetDaysLabel | frontend/src/pages/Dashboard.jsx:81-85 | "Today!", "Tomorrow" or "N days", with one class for everything past tomorrow |
| DashboardPageModel.LabelsDistinct | frontend/src/pages/Dashboard.jsx:81-85 | different day counts get different badges |
| DashboardPageModel.DashboardPage.constructor | frontend/src/pages/Dashboard.jsx:45-60 | mounting loads the first ten upcoming records, or an empty list when the request fails, and loading ends |
| DashboardPageModel.DashboardPage.FetchDashboardData | frontend/src/pages/Dashboard.jsx:49-60 | a loaded answer (null read as empty) replaces the list by its first ten records; a failed one leaves it; loading ends either way |
| DashboardPageModel.DashboardPage.OpenImportModal | frontend/src/pages/Dashboard.jsx:241 | the Dashboard opens the strict dialog, with no file and no result |
| SettingsPageModel.ToggleRemoves | frontend/src/pages/Settings.jsx:61-62 | toggling a present day drops every occurrence of it and keeps every other day as often as it was there |
| SettingsPageModel.ToggleAdds | frontend/src/pages/Settings.jsx:63-64 | toggling an absent day adds it once, keeps the others, and leaves the list largest first |
| SettingsPageModel.ToggleElements | frontend/src/pages/Settings.jsx:58-67 | after a toggle, the toggled day is present exactly when it was absent, and every other day as before |
| SettingsPageModel.ToggleTwice | frontend/src/pages/Settings.jsx:58-67 | toggling the same day twice gives back the same set of days |
| SettingsPageModel.AvailableDaysInRange | frontend/src/pages/Settings.jsx:17 | every offered day lies in the 0..30 range the back end accepts |
| SettingsPageModel.ToggleStaysAvailable | frontend/src/pages/Settings.jsx:17-67 | toggling offered days gives offered days only, so saving them passes the back end's range check |
| SettingsPageModel.ToggleKeepsDescending | frontend/src/pages/Settings.jsx:58-67 | a list kept largest first stays so under toggling |
| SettingsPageModel.Phrases | frontend/src/pages/Settings.jsx:242 | one phrase per day, in order |
| SettingsPageModel.RenderSortSettles | frontend/src/pages/Settings.jsx:242 | the render's in-place sort settles after one pass |
| SettingsPageModel.RenderSortAfterToggle | frontend/src/pages/Settings.jsx:242 | on a list kept largest first, as toggling keeps it, the render's sort changes nothing |
| SettingsPageModel.InitialDaysDescending | frontend/src/pages/Settings.jsx:27 | the page's initial days `[7, 3, 1]` are largest first |
| SettingsPageModel.DisplayHour | frontend/src/pages/Settings.jsx:74 | the shown hour is always between 1 and 12 |
| SettingsPageModel.GetTimeLabel | frontend/src/pages/Settings.jsx:69-79 | no time or an empty one gives "8:00 AM" |
| SettingsPageModel.WellFormedTimeLabel | frontend/src/pages/Settings.jsx:69-79 | for a well-formed `HH:MM`: the hour on the twelve-hour clock (0 as 12), two-digit minutes, PM exactly from 12 on; and the scheduler mails at that hour |
| SettingsPageModel.DefaultTimeLabel | frontend/src/pages/Settings.jsx:30 | the default time `08:00` shows as "8:00 AM", the same as the fallback |
| SettingsPageModel.ReplaceById | frontend/src/pages/Settings.jsx:349 | the list keeps its length, and exactly the entries with the saved id are replaced |
| SettingsPageModel.ReplaceMissingId | frontend/src/pages/Settings.jsx:349 | saving an edit of a category no longer listed leaves the list as it was |
| SettingsPageModel.ReplaceIdempotent | frontend/src/pages/Settings.jsx:349 | saving the same edit twice has the effect of saving it once |
| SettingsPageModel.SettingsPage.constructor | frontend/src/pages/Settings.jsx:23-31 | the initial days `[7, 3, 1]`, no categories, no dialog |
| SettingsPageModel.SettingsPage.ToggleDay | frontend/src/pages/Settings.jsx:58-67 | the settings take the toggled list and nothing else changes |
| SettingsPageModel.SettingsPage.RenderDaysSummary | frontend/src/pages/Settings.jsx:241-243 | a non-empty list is sorted largest first in place and phrased in that order; otherwise "No notification days selected." |
| SettingsPageModel.SettingsPage.OnSave | frontend/src/pages/Settings.jsx:347-354 | an edit replaces by id, a new category is appended; the dialog closes |

## Left out

**Backend services**
- Query endpoints with no logic beyond a repository query are not modelled: `getAllCategories` (in name order), `getAllBirthdays`, `getBirthdaysByCategory`, `searchBirthdays`, `getBirthdayCount` and `findBirthdaysForDate`. The repositories' JPQL orderings go with them. These unmodelled queries would return the table order in this model. The export, analytics and scheduler lists are modelled, and they are sorted by birth date as their queries are.
- JPA repositories, `@Transactional` rollback, Lombok accessors, the DTO mappers, the controllers, `GlobalExceptionHandler`, `AuthService` and the application class are not modelled. The tables are in-memory sequences and maps.
- The count clamp of `WishController` becomes the argument `count`. It is not restricted, and a `count` of 0 or less gives no wishes.
- The clock (`LocalDate.now()`, `LocalDateTime.now()`, JS `new Date()`) is not modelled. Today's date and the current hour are parameters.
- `DateTimeFormatter` and its SMART resolution are not modelled. `parseDate` is modelled as first success over an ordered list of partial parsers, given as a parameter.
- CsvImport.ParseDate: covers only the six formatters' order and first success. Which strings each formatter accepts is left open.
- `Locale` month names are not modelled. The e-mail's long birth-date format uses the English names.
- Reading the uploaded file is not modelled. The import takes its lines as a sequence. The outer catch for an unreadable file is left out (BirthdayService.java:291-294), and so is the inner catch (BirthdayService.java:287-289). In the code that catch turns a failed `save` into a line error, for instance notes longer than the 500-character column (entity/Birthday.java:41), which the import never checks. Persistence failures are not modelled, so in the model every line ends in an imported record or in one of the three named errors.
- The import's map of categories by lowercased name is modelled as a first-match search in table order. The code builds the map in name order. The two agree because the birthday service's invariant keeps each user's category names distinct ignoring case, so at most one category matches (CsvImport.FindCategoryUnique).
- Null elements inside request lists are not modelled, nor a null `notificationDays` list in a settings request. A null `notificationDays` string, template or time on a stored entity is not modelled either: the entity fields are plain strings, and the empty string plays the part of null where the code treats both alike.
- BirthdayRequestRules.ValidBirthdayRequest: does not check `@Email` on `friendEmail`. Any string is accepted there, because the address grammar Hibernate Validator applies is not modelled.
- The `@Size(max = 2000)` limit on the settings request's template is not modelled.
- BirthdayRequestRules.ValidBirthdayRequest: `@Size` limits are checked against the number of Unicode characters, while Java counts UTF-16 code units, so a name or notes holding characters outside the Basic Multilingual Plane (emoji) can pass the 100 or 500 limit in the model where Java rejects them.
- CategoryRequestRules.ValidCategoryRequest: the same `@Size` difference for the 50-character name and the 50-character icon.
- Numbers.ParseInt: accepts only ASCII digits, while `Integer.parseInt` also accepts the decimal digits of other scripts.
- What happens to the birthdays whose category is deleted is not modelled. `deleteCategory` removes only the category row and leaves its birthdays to the persistence layer.
- WishServiceModel.FirstName: does not model the exception Java's `split(" ")[0]` throws for a name made only of spaces. For such a name the model gives the empty string.
- `Collections.shuffle` is not modelled as randomness. It becomes the argument `shuffled`, which may be any permutation of the templates.
- ICalendar.EscapeTextProperties: `Escaped` admits control characters other than the newline, as `escapeICalText` does. A carriage return or other control character in a name, notes or category name reaches the output unescaped, although TEXT in section 3.3.11 of RFC 5545 forbids them (ICalendar.CarriageReturnKept).
- ImportDialog.ImportModal.HandleImport: a successful answer whose `data.data` is missing is not modelled. The page then clears the result, throws inside the try and shows the error toast (frontend/src/pages/Birthdays.jsx:395-401). In the model, every successful answer carries an import result.

**Reminders**
- The mail transport (`JavaMailSender`, MIME messages) is not modelled; it is a parameter that reports success or failure. `sendSimpleEmail` and `sendHtmlEmail` are only that transport plus the message layout.
- Of the HTML e-mail, only the colour and text chosen for the urgency are modelled. The literal HTML layout, the category badge and the notes block are not.
- `sendTestNotification` is left out. It sends one fixed test message through the transport and returns whether that send succeeded.
- `triggerManualNotificationCheck` is left out. It only calls `sendBirthdayNotifications` and logs.
- The scheduler's inner catch around a single send is not modelled. `sendBirthdayReminder` already catches every failure, so that catch is never reached.
- Logging is not modelled.

**Front-end**
- SettingsPageModel.ToNumber: models JavaScript's `Number()` only for the empty string and strings of ASCII digits. Every other string counts as NaN, including signs, blanks and decimals, which `Number()` would accept.
- The pages' in-place `Array.prototype.sort` is modelled as a value-level stable sort, so the page state is reassigned rather than mutated.
- `useEffect` does not re-run the filter on its own. A page method re-runs it, and the callers run it after each change.
- Toasts, JSX rendering, the Blob download of the export, the clipboard, `setTimeout` and the axios/localStorage plumbing are not modelled.
- The Birthdays and Settings pages' `fetchData` is not modelled. Their state starts empty, as when they mount, and the loaded lists are not read in. The Dashboard's fetch is modelled.
- These handlers are not modelled: the Settings page's `handleDeleteCategory`, `handleChange`, `handleSubmit` and the e-mail toggle.
- The Summary, AddBirthday, EditBirthday, Login and Register pages, the layout, the routing and the auth context are not modelled.
- `Summary.jsx` is left out because its counts depend on the time zone in which JavaScript parses ISO dates.
- Case mapping and case-insensitive comparison (`toLowerCase`, `equalsIgnoreCase`) are modelled on ASCII letters only. Java and JavaScript also map non-ASCII letters, so "josé" and "JOSÉ" differ in the model. This affects the import's category key and header test, the Birthdays page search, and the case-insensitive category names of the category service.
