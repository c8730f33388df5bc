/**
 * The CSV side of `BirthdayService.importFromCsv`: the quote-toggling line
 * splitter `parseCsvLine`, the first-match date parser `parseDate`, the choice
 * of the lines that count as data, and the outcome of one data line.
 * Expected columns: name, birth date, email, notes, category.
 */
module CsvImport {
  import opened Wrappers
  import opened Text
  import opened Numbers
  import opened Dates
  import opened Users
  import opened CategoryEntity
  import opened BirthdayEntity

  // ---------------------------------------------------------------- fields

  /**
   * The fields `parseCsvLine` produces from the rest `line` of its input, when
   * it is inside quotes or not and has already collected `current`.
   */
  function CsvFields(line: string, inQuotes: bool, current: string): (r: seq<string>)
    ensures |r| >= 1
    decreases |line|
  {
    if line == [] then [current]
    else if line[0] == '"' then CsvFields(line[1..], !inQuotes, current)
    else if line[0] == ',' && !inQuotes then [current] + CsvFields(line[1..], inQuotes, "")
    else CsvFields(line[1..], inQuotes, current + [line[0]])
  }

  /** `parseCsvLine(line)`: split at commas outside double quotes and drop the quotes. */
  method ParseCsvLine(line: string) returns (parts: seq<string>)
    ensures parts == CsvFields(line, false, "")
  {
    parts := [];
    var current := "";
    var inQuotes := false;
    var i := 0;
    while i < |line|
      invariant 0 <= i <= |line|
      invariant parts + CsvFields(line[i..], inQuotes, current) == CsvFields(line, false, "")
    {
      var c := line[i];
      assert line[i..][0] == c && line[i..][1..] == line[i + 1..];
      if c == '"' {
        inQuotes := !inQuotes;
      } else if c == ',' && !inQuotes {
        parts := parts + [current];
        current := "";
      } else {
        current := current + [c];
      }
      i := i + 1;
    }
    assert line[i..] == [];
    parts := parts + [current];
  }

  /** `s` with every double quote removed. */
  function WithoutQuotes(s: string): (r: string)
    ensures '"' !in r
  {
    if s == [] then [] else (if s[0] == '"' then [] else [s[0]]) + WithoutQuotes(s[1..])
  }

  /** The commas that separate fields: those met outside quotes. */
  function CommasOutsideQuotes(s: string, inQuotes: bool): nat {
    if s == [] then 0
    else if s[0] == '"' then CommasOutsideQuotes(s[1..], !inQuotes)
    else if s[0] == ',' && !inQuotes then 1 + CommasOutsideQuotes(s[1..], inQuotes)
    else CommasOutsideQuotes(s[1..], inQuotes)
  }

  lemma JoinCons(x: string, rest: seq<string>, sep: string)
    requires |rest| >= 1
    ensures Join([x] + rest, sep) == x + sep + Join(rest, sep)
  {
    assert ([x] + rest)[1..] == rest;
  }

  /** Joining the fields with "," gives back the input without its quotes. */
  lemma {:induction false} CsvFieldsJoin(line: string, inQuotes: bool, current: string)
    ensures Join(CsvFields(line, inQuotes, current), ",") == current + WithoutQuotes(line)
    decreases |line|
  {
    if line == [] {
      assert current + WithoutQuotes(line) == current;
    } else if line[0] == '"' {
      CsvFieldsJoin(line[1..], !inQuotes, current);
      JoinStepQuote(line, inQuotes, current);
    } else if line[0] == ',' && !inQuotes {
      CsvFieldsJoin(line[1..], inQuotes, "");
      JoinStepComma(line, inQuotes, current);
    } else {
      CsvFieldsJoin(line[1..], inQuotes, current + [line[0]]);
      JoinStepChar(line, inQuotes, current);
    }
  }

  lemma JoinStepQuote(line: string, inQuotes: bool, current: string)
    requires line != [] && line[0] == '"'
    requires Join(CsvFields(line[1..], !inQuotes, current), ",") == current + WithoutQuotes(line[1..])
    ensures Join(CsvFields(line, inQuotes, current), ",") == current + WithoutQuotes(line)
  {
    assert CsvFields(line, inQuotes, current) == CsvFields(line[1..], !inQuotes, current);
    assert WithoutQuotes(line) == [] + WithoutQuotes(line[1..]);
  }

  lemma JoinStepComma(line: string, inQuotes: bool, current: string)
    requires line != [] && line[0] == ',' && !inQuotes
    requires Join(CsvFields(line[1..], inQuotes, ""), ",") == "" + WithoutQuotes(line[1..])
    ensures Join(CsvFields(line, inQuotes, current), ",") == current + WithoutQuotes(line)
  {
    var fields := CsvFields(line[1..], inQuotes, "");
    var rest := WithoutQuotes(line[1..]);
    assert "" + rest == rest;
    calc {
      Join(CsvFields(line, inQuotes, current), ",");
      Join([current] + fields, ",");
      { JoinCons(current, fields, ","); }
      current + "," + Join(fields, ",");
      current + "," + rest;
      { assert current + "," + rest == current + ([','] + rest); }
      current + ([','] + rest);
      { assert WithoutQuotes(line) == [','] + rest; }
      current + WithoutQuotes(line);
    }
  }

  lemma JoinStepChar(line: string, inQuotes: bool, current: string)
    requires line != [] && line[0] != '"' && !(line[0] == ',' && !inQuotes)
    requires Join(CsvFields(line[1..], inQuotes, current + [line[0]]), ",") == current + [line[0]] + WithoutQuotes(line[1..])
    ensures Join(CsvFields(line, inQuotes, current), ",") == current + WithoutQuotes(line)
  {
    assert WithoutQuotes(line) == [line[0]] + WithoutQuotes(line[1..]);
  }

  /** There is one field more than there are commas outside quotes. */
  lemma {:induction false} CsvFieldsCount(line: string, inQuotes: bool, current: string)
    ensures |CsvFields(line, inQuotes, current)| == 1 + CommasOutsideQuotes(line, inQuotes)
    decreases |line|
  {
    if line != [] {
      if line[0] == '"' {
        CsvFieldsCount(line[1..], !inQuotes, current);
      } else if line[0] == ',' && !inQuotes {
        CsvFieldsCount(line[1..], inQuotes, "");
      } else {
        CsvFieldsCount(line[1..], inQuotes, current + [line[0]]);
      }
    }
  }

  /** The properties of `parseCsvLine` on a whole line. */
  lemma ParseCsvLineProperties(line: string)
    ensures Join(CsvFields(line, false, ""), ",") == WithoutQuotes(line)
    ensures |CsvFields(line, false, "")| == 1 + CommasOutsideQuotes(line, false)
  {
    CsvFieldsJoin(line, false, "");
    assert "" + WithoutQuotes(line) == WithoutQuotes(line);
    CsvFieldsCount(line, false, "");
  }

  /** An unbalanced quote is no error: everything after it is one field. */
  lemma UnbalancedQuote(s: string)
    requires '"' !in s
    ensures CsvFields("\"" + s, false, "") == [s]
  {
    var line := "\"" + s;
    assert line[0] == '"' && line[1..] == s;
    assert CsvFields(line, false, "") == CsvFields(s, true, "");
    InsideQuotes(s, "");
    assert "" + s == s;
  }

  lemma {:induction false} InsideQuotes(s: string, current: string)
    requires '"' !in s
    ensures CsvFields(s, true, current) == [current + s]
    decreases |s|
  {
    if s == [] {
      assert current + s == current;
    } else {
      InsideQuotes(s[1..], current + [s[0]]);
      assert current + [s[0]] + s[1..] == current + s;
    }
  }

  // ------------------------------------------------------------------ dates

  /** A `DateTimeFormatter` used as a parser: `None` when it throws `DateTimeParseException`. */
  type DateParser = string -> Option<CalendarDate>

  /** The result of the first parser that succeeds, in list order. */
  function FirstSuccess(parsers: seq<DateParser>, s: string): Option<CalendarDate> {
    if parsers == [] then None
    else if parsers[0](s).Some? then parsers[0](s)
    else FirstSuccess(parsers[1..], s)
  }

  /** `FirstSuccess` fails exactly when every parser fails, and otherwise answers with the first success. */
  lemma {:induction false} FirstSuccessSpec(parsers: seq<DateParser>, s: string)
    ensures FirstSuccess(parsers, s).None? <==> forall i :: 0 <= i < |parsers| ==> parsers[i](s).None?
    ensures forall i :: 0 <= i < |parsers| && parsers[i](s).Some? && (forall j :: 0 <= j < i ==> parsers[j](s).None?)
                        ==> FirstSuccess(parsers, s) == parsers[i](s)
  {
    if parsers != [] {
      FirstSuccessSpec(parsers[1..], s);
      assert forall i :: 1 <= i < |parsers| ==> parsers[i] == parsers[1..][i - 1];
      forall i | 0 <= i < |parsers| && parsers[i](s).Some? && (forall j :: 0 <= j < i ==> parsers[j](s).None?)
        ensures FirstSuccess(parsers, s) == parsers[i](s)
      {
        if i > 0 {
          assert forall j :: 0 <= j < i - 1 ==> parsers[1..][j](s).None? by {
            forall j | 0 <= j < i - 1 ensures parsers[1..][j](s).None? {
              assert parsers[1..][j] == parsers[j + 1];
            }
          }
        }
      }
    }
  }

  /** `parseDate(s)`: try each formatter in order, keep the first result, `None` (null) if all fail. */
  method ParseDate(parsers: seq<DateParser>, s: string) returns (r: Option<CalendarDate>)
    ensures r == FirstSuccess(parsers, s)
  {
    var i := 0;
    while i < |parsers|
      invariant 0 <= i <= |parsers|
      invariant FirstSuccess(parsers, s) == FirstSuccess(parsers[i..], s)
    {
      assert parsers[i..][0] == parsers[i] && parsers[i..][1..] == parsers[i + 1..];
      var parsed := parsers[i](s);
      if parsed.Some? {
        return parsed;
      }
      i := i + 1;
    }
    return None;
  }

  // ------------------------------------------------------------------ lines

  /** A line of the file with its 1-based physical line number. */
  datatype NumberedLine = NumberedLine(number: nat, text: string)

  /** The header test: the lower-cased line mentions "name" or "date". */
  predicate LooksLikeHeader(line: string) {
    Contains(Lower(line), "name") || Contains(Lower(line), "date")
  }

  /*
   * The skipping rules are stated for any blank test and header test, and
   * used with `IsBlank` and `LooksLikeHeader`; the proofs about them need
   * nothing else of the two tests.
   */

  predicate AllBlank(lines: seq<string>, blank: string -> bool) {
    forall i :: 0 <= i < |lines| ==> blank(lines[i])
  }

  /**
   * The lines the import loop processes, from the rest `lines` of the file,
   * after `before` lines have been read, while the header is still expected
   * or not.
   */
  function SelectLines(lines: seq<string>, before: nat, headerPending: bool,
                       blank: string -> bool, header: string -> bool): seq<NumberedLine>
    decreases |lines|
  {
    if lines == [] then []
    else if blank(lines[0]) then SelectLines(lines[1..], before + 1, headerPending, blank, header)
    else if headerPending && header(lines[0]) then SelectLines(lines[1..], before + 1, false, blank, header)
    else [NumberedLine(before + 1, lines[0])] + SelectLines(lines[1..], before + 1, false, blank, header)
  }

  /** The lines `importFromCsv` processes, numbered from 1. */
  function DataLines(lines: seq<string>): seq<NumberedLine> {
    SelectLines(lines, 0, true, IsBlank, LooksLikeHeader)
  }

  /**
   * Whether line `i` (0-based) is processed: it is not blank, and it is not
   * the header, i.e. not the first non-blank line while that looks like a header.
   */
  predicate IsDataLine(lines: seq<string>, i: int, headerPending: bool, blank: string -> bool, header: string -> bool)
    requires 0 <= i < |lines|
  {
    !blank(lines[i]) && !(headerPending && AllBlank(lines[..i], blank) && header(lines[i]))
  }

  /** The header is still expected after a line only if that line is blank. */
  function HeaderAfter(line: string, headerPending: bool, blank: string -> bool): bool {
    if blank(line) then headerPending else false
  }

  /** One step of `SelectLines`: the first line either is processed or not, and the rest follows. */
  lemma SelectStep(lines: seq<string>, before: nat, headerPending: bool, blank: string -> bool, header: string -> bool)
    requires lines != []
    ensures SelectLines(lines, before, headerPending, blank, header)
      == (if IsDataLine(lines, 0, headerPending, blank, header) then [NumberedLine(before + 1, lines[0])] else [])
         + SelectLines(lines[1..], before + 1, HeaderAfter(lines[0], headerPending, blank), blank, header)
  {
    assert lines[..0] == [];
  }

  lemma AllBlankCons(lines: seq<string>, blank: string -> bool)
    requires lines != []
    ensures AllBlank(lines, blank) == (blank(lines[0]) && AllBlank(lines[1..], blank))
  {
    if blank(lines[0]) && AllBlank(lines[1..], blank) {
      forall i | 1 <= i < |lines| ensures blank(lines[i]) {
        assert lines[i] == lines[1..][i - 1];
      }
    }
  }

  /** Reading a file in two parts: the header is still pending after the first part only if it was all blank. */
  lemma {:induction false} SelectAppend(a: seq<string>, b: seq<string>, before: nat, headerPending: bool,
                                        blank: string -> bool, header: string -> bool)
    ensures SelectLines(a + b, before, headerPending, blank, header)
      == SelectLines(a, before, headerPending, blank, header)
         + SelectLines(b, before + |a|, headerPending && AllBlank(a, blank), blank, header)
    decreases |a|
  {
    if a == [] {
      assert a + b == b;
    } else {
      var ab := a + b;
      assert ab[0] == a[0] && ab[1..] == a[1..] + b && ab[..0] == a[..0];
      var h' := HeaderAfter(a[0], headerPending, blank);
      SelectStep(ab, before, headerPending, blank, header);
      SelectStep(a, before, headerPending, blank, header);
      SelectAppend(a[1..], b, before + 1, h', blank, header);
      AllBlankCons(a, blank);
    }
  }

  /** Past the first line, a line keeps its data status in the rest of the file. */
  lemma IsDataLineShift(lines: seq<string>, i: int, headerPending: bool, blank: string -> bool, header: string -> bool)
    requires 1 <= i < |lines|
    ensures IsDataLine(lines, i, headerPending, blank, header)
      == IsDataLine(lines[1..], i - 1, HeaderAfter(lines[0], headerPending, blank), blank, header)
  {
    assert lines[i] == lines[1..][i - 1];
    assert lines[..i][1..] == lines[1..][..i - 1];
    AllBlankCons(lines[..i], blank);
  }

  /** Each processed line is a data line of the file, under its physical line number. */
  lemma {:induction false} SelectSound(lines: seq<string>, before: nat, headerPending: bool,
                                       blank: string -> bool, header: string -> bool)
    ensures forall nl :: nl in SelectLines(lines, before, headerPending, blank, header) ==>
      before < nl.number <= before + |lines|
      && nl.text == lines[nl.number - before - 1]
      && IsDataLine(lines, nl.number - before - 1, headerPending, blank, header)
    decreases |lines|
  {
    if lines != [] {
      var h' := HeaderAfter(lines[0], headerPending, blank);
      SelectSound(lines[1..], before + 1, h', blank, header);
      SelectStep(lines, before, headerPending, blank, header);
      forall nl | nl in SelectLines(lines[1..], before + 1, h', blank, header)
        ensures IsDataLine(lines, nl.number - before - 1, headerPending, blank, header)
        ensures nl.text == lines[nl.number - before - 1]
      {
        IsDataLineShift(lines, nl.number - before - 1, headerPending, blank, header);
      }
    }
  }

  predicate Increasing(d: seq<NumberedLine>) {
    forall k, l :: 0 <= k < l < |d| ==> d[k].number < d[l].number
  }

  /** The processed lines come in file order. */
  lemma {:induction false} SelectIncreasing(lines: seq<string>, before: nat, headerPending: bool,
                                            blank: string -> bool, header: string -> bool)
    ensures Increasing(SelectLines(lines, before, headerPending, blank, header))
    decreases |lines|
  {
    if lines != [] {
      var h' := HeaderAfter(lines[0], headerPending, blank);
      var dr := SelectLines(lines[1..], before + 1, h', blank, header);
      SelectIncreasing(lines[1..], before + 1, h', blank, header);
      SelectSound(lines[1..], before + 1, h', blank, header);
      SelectStep(lines, before, headerPending, blank, header);
      if IsDataLine(lines, 0, headerPending, blank, header) {
        IncreasingCons(NumberedLine(before + 1, lines[0]), dr);
      }
    }
  }

  lemma IncreasingCons(x: NumberedLine, rest: seq<NumberedLine>)
    requires Increasing(rest) && forall nl :: nl in rest ==> x.number < nl.number
    ensures Increasing([x] + rest)
  {
    forall k, l | 0 <= k < l < |[x] + rest| ensures ([x] + rest)[k].number < ([x] + rest)[l].number {
      if k == 0 {
        assert ([x] + rest)[l] == rest[l - 1];
        assert rest[l - 1] in rest;
      } else {
        assert ([x] + rest)[k] == rest[k - 1] && ([x] + rest)[l] == rest[l - 1];
      }
    }
  }

  /** Every data line is processed, under its physical line number. */
  lemma {:induction false} SelectComplete(lines: seq<string>, before: nat, headerPending: bool,
                                          blank: string -> bool, header: string -> bool, i: int)
    requires 0 <= i < |lines| && IsDataLine(lines, i, headerPending, blank, header)
    ensures NumberedLine(before + i + 1, lines[i]) in SelectLines(lines, before, headerPending, blank, header)
    decreases |lines|
  {
    SelectStep(lines, before, headerPending, blank, header);
    if i > 0 {
      IsDataLineShift(lines, i, headerPending, blank, header);
      SelectComplete(lines[1..], before + 1, HeaderAfter(lines[0], headerPending, blank), blank, header, i - 1);
    }
  }

  /**
   * Whether line `i` (0-based) of the file is processed by the import: it is
   * not blank, and it is not a first non-blank line that looks like a header.
   */
  predicate IsProcessed(lines: seq<string>, i: int)
    requires 0 <= i < |lines|
  {
    IsDataLine(lines, i, true, IsBlank, LooksLikeHeader)
  }

  /**
   * The processed lines are exactly the lines `IsProcessed` picks, each under
   * its physical line number, in file order.
   */
  lemma DataLinesSpec(lines: seq<string>)
    ensures forall nl :: nl in DataLines(lines) ==>
      1 <= nl.number <= |lines| && nl.text == lines[nl.number - 1] && IsProcessed(lines, nl.number - 1)
    ensures Increasing(DataLines(lines))
    ensures forall i :: 0 <= i < |lines| && IsProcessed(lines, i) ==> NumberedLine(i + 1, lines[i]) in DataLines(lines)
  {
    DataLinesSound(lines);
    SelectIncreasing(lines, 0, true, IsBlank, LooksLikeHeader);
    forall i | 0 <= i < |lines| && IsProcessed(lines, i)
      ensures NumberedLine(i + 1, lines[i]) in DataLines(lines)
    {
      DataLineProcessed(lines, i);
    }
  }

  lemma DataLinesSound(lines: seq<string>)
    ensures forall nl :: nl in DataLines(lines) ==>
      1 <= nl.number <= |lines| && nl.text == lines[nl.number - 1] && IsProcessed(lines, nl.number - 1)
  {
    var d := DataLines(lines);
    SelectSound(lines, 0, true, IsBlank, LooksLikeHeader);
    forall nl | nl in d
      ensures 1 <= nl.number <= |lines| && nl.text == lines[nl.number - 1] && IsProcessed(lines, nl.number - 1)
    {
      assert nl.number - 0 - 1 == nl.number - 1;
    }
  }

  lemma DataLineProcessed(lines: seq<string>, i: int)
    requires 0 <= i < |lines| && IsProcessed(lines, i)
    ensures NumberedLine(i + 1, lines[i]) in DataLines(lines)
  {
    SelectComplete(lines, 0, true, IsBlank, LooksLikeHeader, i);
  }

  /**
   * Reading one more line: it is processed exactly when it is not blank and is
   * not a first non-blank line that looks like a header.
   */
  lemma DataLinesSnoc(prefix: seq<string>, line: string)
    ensures DataLines(prefix + [line])
      == DataLines(prefix)
         + (if !IsBlank(line) && !(AllBlank(prefix, IsBlank) && LooksLikeHeader(line))
            then [NumberedLine(|prefix| + 1, line)] else [])
  {
    SelectAppend(prefix, [line], 0, true, IsBlank, LooksLikeHeader);
    SelectStep([line], |prefix|, AllBlank(prefix, IsBlank), IsBlank, LooksLikeHeader);
    assert [line][1..] == [] && [line][..0] == [];
  }

  /** Only the first non-blank line can be taken for a header. */
  lemma OnlyFirstLineIsHeader(lines: seq<string>, i: int)
    requires 0 <= i < |lines| && !IsBlank(lines[i])
    requires exists j :: 0 <= j < i && !IsBlank(lines[j])
    ensures IsProcessed(lines, i)
  {
    var j :| 0 <= j < i && !IsBlank(lines[j]);
    assert lines[..i][j] == lines[j];
  }

  // --------------------------------------------------------------- outcomes

  /** What one processed line contributes: a record to save, or an error message. */
  datatype LineOutcome = Imported(record: Birthday) | Rejected(message: string)

  /** The messages of the three rejections, without their "Line N: " prefix. */
  const InvalidFormat: string := "Invalid format (need at least name and date)"
  const NameRequired: string := "Name is required"
  const InvalidDate: string := "Invalid date format"

  function LinePrefix(number: nat): string {
    "Line " + IntToString(number) + ": "
  }

  /** `parts[k].trim()` when that column exists, null otherwise. */
  function Column(parts: seq<string>, k: nat): Option<string> {
    if |parts| > k then Some(Trim(parts[k])) else None
  }

  /** `s != null && !s.isEmpty() ? s : null` */
  function NonEmpty(s: Option<string>): (r: Option<string>)
    ensures r.Some? ==> r.value != [] && r == s
    ensures r.None? <==> s.None? || s.value == []
  {
    if s.Some? && s.value != [] then s else None
  }

  /**
   * The category-map lookup: among the user's categories, the first in table
   * order whose lower-cased name is `key`. With names distinct ignoring case
   * there is at most one (`FindCategoryUnique`).
   */
  function FindCategory(categories: seq<Category>, user: UserId, key: string): (r: Option<int>)
    ensures r.Some? ==> exists c :: c in categories && c.owner == user && Lower(c.name) == key && c.id == r.value
    ensures r.None? ==> forall c :: c in categories && c.owner == user ==> Lower(c.name) != key
  {
    if categories == [] then None
    else if categories[0].owner == user && Lower(categories[0].name) == key then Some(categories[0].id)
    else FindCategory(categories[1..], user, key)
  }

  /**
   * While a user's category names are distinct ignoring case, as the category
   * service keeps them, the lookup finds the one category with that
   * lower-cased name, whatever order the categories are listed in.
   */
  lemma {:induction false} FindCategoryUnique(categories: seq<Category>, user: UserId, key: string, c: Category)
    requires UniqueNamesPerUser(categories)
    requires c in categories && c.owner == user && Lower(c.name) == key
    ensures FindCategory(categories, user, key) == Some(c.id)
  {
    if categories[0] != c {
      var rest := categories[1..];
      assert c in rest;
      assert UniqueNamesPerUser(rest) by {
        forall i, j | 0 <= i < j < |rest| && rest[i].owner == rest[j].owner
          ensures !EqualsIgnoreCase(rest[i].name, rest[j].name)
        {
          assert rest[i] == categories[i + 1] && rest[j] == categories[j + 1];
        }
      }
      FindCategoryUnique(rest, user, key, c);
    }
  }

  /** The body of the import loop for one data line, the record's id left to the repository (0). */
  function ProcessLine(line: NumberedLine, user: UserId, categories: seq<Category>, parsers: seq<DateParser>): LineOutcome {
    var parts := CsvFields(line.text, false, "");
    if |parts| < 2 then Rejected(LinePrefix(line.number) + InvalidFormat)
    else
      var name := Trim(parts[0]);
      if name == [] then Rejected(LinePrefix(line.number) + NameRequired)
      else
        match FirstSuccess(parsers, Trim(parts[1]))
        case None => Rejected(LinePrefix(line.number) + InvalidDate)
        case Some(date) => Imported(NewRecord(parts, user, categories, name, date))
  }

  /**
   * The record built from a line's fields: optional email and notes (empty
   * ones become null), the category looked up by its lower-cased name, active.
   */
  function NewRecord(parts: seq<string>, user: UserId, categories: seq<Category>, name: string, date: CalendarDate): Birthday {
    var category := match Column(parts, 4)
      case None => None
      case Some(key) => FindCategory(categories, user, Lower(key));
    Birthday(0, user, category, name, date, NonEmpty(Column(parts, 2)), NonEmpty(Column(parts, 3)), true)
  }

  /** What the data lines contribute, in order. */
  function Outcomes(lines: seq<NumberedLine>, user: UserId, categories: seq<Category>, parsers: seq<DateParser>): (r: seq<LineOutcome>)
    ensures |r| == |lines|
    ensures forall k :: 0 <= k < |lines| ==> r[k] == ProcessLine(lines[k], user, categories, parsers)
  {
    if lines == [] then [] else [ProcessLine(lines[0], user, categories, parsers)] + Outcomes(lines[1..], user, categories, parsers)
  }

  lemma {:induction false} OutcomesAppend(a: seq<NumberedLine>, b: seq<NumberedLine>, user: UserId,
                                          categories: seq<Category>, parsers: seq<DateParser>)
    ensures Outcomes(a + b, user, categories, parsers)
      == Outcomes(a, user, categories, parsers) + Outcomes(b, user, categories, parsers)
    decreases |a|
  {
    if a == [] {
      assert a + b == b;
    } else {
      assert (a + b)[0] == a[0] && (a + b)[1..] == a[1..] + b;
      OutcomesAppend(a[1..], b, user, categories, parsers);
    }
  }

  /** The records of the imported lines, in order. */
  function Records(outcomes: seq<LineOutcome>): seq<Birthday> {
    if outcomes == [] then []
    else (if outcomes[0].Imported? then [outcomes[0].record] else []) + Records(outcomes[1..])
  }

  /** The error messages of the rejected lines, in order. */
  function Errors(outcomes: seq<LineOutcome>): seq<string> {
    if outcomes == [] then []
    else (if outcomes[0].Rejected? then [outcomes[0].message] else []) + Errors(outcomes[1..])
  }

  lemma RecordsErrorsAppend(a: seq<LineOutcome>, b: seq<LineOutcome>)
    ensures Records(a + b) == Records(a) + Records(b)
    ensures Errors(a + b) == Errors(a) + Errors(b)
  {
    RecordsAppend(a, b);
    ErrorsAppend(a, b);
  }

  lemma {:induction false} RecordsAppend(a: seq<LineOutcome>, b: seq<LineOutcome>)
    ensures Records(a + b) == Records(a) + Records(b)
  {
    if a == [] {
      assert a + b == b;
    } else {
      var head := if a[0].Imported? then [a[0].record] else [];
      assert (a + b)[0] == a[0] && (a + b)[1..] == a[1..] + b;
      RecordsAppend(a[1..], b);
      assert Records(a + b) == head + Records(a[1..] + b);
      assert head + (Records(a[1..]) + Records(b)) == (head + Records(a[1..])) + Records(b);
    }
  }

  lemma {:induction false} ErrorsAppend(a: seq<LineOutcome>, b: seq<LineOutcome>)
    ensures Errors(a + b) == Errors(a) + Errors(b)
  {
    if a == [] {
      assert a + b == b;
    } else {
      var head := if a[0].Rejected? then [a[0].message] else [];
      assert (a + b)[0] == a[0] && (a + b)[1..] == a[1..] + b;
      ErrorsAppend(a[1..], b);
      assert Errors(a + b) == head + Errors(a[1..] + b);
      assert head + (Errors(a[1..]) + Errors(b)) == (head + Errors(a[1..])) + Errors(b);
    }
  }

  /** Every processed line adds exactly one entry, to the records or to the errors. */
  lemma {:induction false} OneEntryPerLine(outcomes: seq<LineOutcome>)
    ensures |Records(outcomes)| + |Errors(outcomes)| == |outcomes|
  {
    if outcomes != [] {
      OneEntryPerLine(outcomes[1..]);
    }
  }

  /**
   * A rejection names the physical line and one of the three reasons; an
   * imported record has a non-blank trimmed name, is active and belongs to the user.
   */
  lemma ProcessLineShape(line: NumberedLine, user: UserId, categories: seq<Category>, parsers: seq<DateParser>)
    ensures match ProcessLine(line, user, categories, parsers)
      case Rejected(m) =>
        m == LinePrefix(line.number) + InvalidFormat
        || m == LinePrefix(line.number) + NameRequired
        || m == LinePrefix(line.number) + InvalidDate
      case Imported(b) =>
        b.owner == user && b.isActive && b.friendName != [] && Trim(b.friendName) == b.friendName
        && |CsvFields(line.text, false, "")| >= 2
  {
    var parts := CsvFields(line.text, false, "");
    if |parts| >= 2 {
      var name := Trim(parts[0]);
      if name != [] {
        TrimIdempotent(parts[0]);
        var parsed := FirstSuccess(parsers, Trim(parts[1]));
        if parsed.Some? {
          var out := ProcessLine(line, user, categories, parsers);
          assert out.Imported? && out.record.friendName == name && out.record.owner == user && out.record.isActive;
        }
      }
    }
  }

  /** Trimming twice trims nothing more. */
  lemma TrimIdempotent(s: string)
    ensures Trim(Trim(s)) == Trim(s)
  {
    var t := Trim(s);
    if t != [] {
      assert TrimStart(t) == t;
    }
  }

  /**
   * A line with fewer than two fields, a blank name or a date no parser
   * accepts is rejected with that reason, checked in that order.
   */
  lemma RejectionReasons(line: NumberedLine, user: UserId, categories: seq<Category>, parsers: seq<DateParser>)
    ensures var parts := CsvFields(line.text, false, "");
      && (CommasOutsideQuotes(line.text, false) == 0 ==>
            ProcessLine(line, user, categories, parsers) == Rejected(LinePrefix(line.number) + InvalidFormat))
      && (|parts| >= 2 && IsBlank(parts[0]) ==>
            ProcessLine(line, user, categories, parsers) == Rejected(LinePrefix(line.number) + NameRequired))
      && (|parts| >= 2 && !IsBlank(parts[0]) && (forall i :: 0 <= i < |parsers| ==> parsers[i](Trim(parts[1])).None?) ==>
            ProcessLine(line, user, categories, parsers) == Rejected(LinePrefix(line.number) + InvalidDate))
  {
    CsvFieldsCount(line.text, false, "");
    var parts := CsvFields(line.text, false, "");
    if |parts| >= 2 {
      BlankIffTrimEmpty(parts[0]);
      FirstSuccessSpec(parsers, Trim(parts[1]));
    }
  }
}
