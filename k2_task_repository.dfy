/** The kid_task2 `TaskRepository`: tasks as rows of the pipe-delimited
    file "Tasks.txt", one column per field. */
module K2TaskRepository {
  import opened Base
  import opened Text
  import opened Seqs
  import opened Numbers
  import opened Failures
  import opened K2Task
  import FS = K2FileStorage

  const FileName: string := "Tasks.txt"
  /** The header line of the file, one string literal in the source. */
  const Header: string := "id|title|description|dueDate|" + "points|status|type|childId|rating"

  lemma HeaderNotBlank()
    ensures !TrimsToEmpty(Header)
  {
    assert Header[0] == 'i';
    NotTrimsToEmpty(Header, 0);
  }

  /** `parseDouble`: a blank cell is no rating, and so is text the JDK
      cannot read as a number; otherwise the trimmed text is read. */
  function RatingOf(lib: LibraryText, cell: string): (rating: Option<real>)
    ensures TrimsToEmpty(cell) ==> rating.None?
    ensures !TrimsToEmpty(cell) ==> rating == lib.readReal(Trim(cell))
  {
    if TrimsToEmpty(cell) then None else lib.readReal(Trim(cell))
  }

  /** The rating column `formatTask` writes: the number, or "" for none. */
  function RatingText(lib: LibraryText, rating: Option<real>): string
  {
    if rating.Some? then lib.showReal(rating.value) else ""
  }

  /** A written rating reads back as itself, a missing one as missing. */
  lemma RatingRoundTrip(lib: LibraryText, rating: Option<real>)
    requires Faithful(lib) && (rating.Some? ==> lib.isDouble(rating.value))
    ensures RatingOf(lib, RatingText(lib, rating)) == rating
  {
    if rating.Some? {
      var s := lib.showReal(rating.value);
      RealTextFaithful(lib, rating.value);
      assert Untrimmed(s);
      TrimOfUntrimmed(s);
    }
  }

  /** `parseTask`: `None` where it throws, which is for a row of fewer than
      nine cells, an unreadable date or points cell, or a status or type
      that is not a constant's name once upper-cased. The cells are used in
      header order and nothing else is checked. */
  function ParseTask(lib: LibraryText, row: seq<string>): (r: Option<TaskData>)
    ensures |row| < 9 ==> r.None?
    ensures |row| >= 9 ==>
      (r.Some? <==> (lib.readDate(row[3]).Some? && ParseInt(row[4]).Some?
                     && StatusNamed(ToUpper(row[5])).Some? && TypeNamed(ToUpper(row[6])).Some?))
    ensures r.Some? ==>
      (r.value.id == row[0] && r.value.title == row[1] && r.value.description == row[2]
       && Some(r.value.dueDate) == lib.readDate(row[3]) && Some(r.value.points) == ParseInt(row[4])
       && Some(r.value.status) == StatusNamed(ToUpper(row[5])) && Some(r.value.taskType) == TypeNamed(ToUpper(row[6]))
       && r.value.childId == row[7] && r.value.rating == RatingOf(lib, row[8]))
  {
    if |row| < 9 then None
    else
      var dueDate := lib.readDate(row[3]);
      var points := ParseInt(row[4]);
      var status := StatusNamed(ToUpper(row[5]));
      var taskType := TypeNamed(ToUpper(row[6]));
      if dueDate.None? || points.None? || status.None? || taskType.None? then None
      else
        match TaskRecord(Some(row[0]), Some(row[1]), Some(row[2]), dueDate, points.value, status,
                         taskType, Some(row[7]), RatingOf(lib, row[8]))
        case Ok(t) => Some(t)
        case Err(_) => None
  }

  /** `formatTask`: nine cells in header order. */
  function FormatTask(lib: LibraryText, t: TaskData): (row: seq<string>)
    ensures |row| == 9
    ensures row[8] == "" <==> (t.rating.None? || lib.showReal(t.rating.value) == "")
  {
    [t.id, t.title, t.description, lib.showDate(t.dueDate), IntText(t.points), StatusName(t.status),
     TypeName(t.taskType), t.childId, RatingText(lib, t.rating)]
  }

  function Parser(lib: LibraryText): seq<string> -> Option<TaskData>
  {
    row => ParseTask(lib, row)
  }

  function Formatter(lib: LibraryText): TaskData -> seq<string>
  {
    t => FormatTask(lib, t)
  }

  /** What `loadAll` keeps of the rows: every row that parses, in file
      order. */
  function TasksOf(lib: LibraryText, rows: seq<seq<string>>): seq<TaskData>
  {
    Collect(rows, Parser(lib))
  }

  /** The rows `saveAll` hands to the storage. */
  function RowsOfTasks(lib: LibraryText, tasks: seq<TaskData>): seq<seq<string>>
  {
    Map(tasks, Formatter(lib))
  }

  /** A task whose row survives the file: text fields the escaping leaves
      alone and without surrounding blanks, points within Java's `int`, and
      a rating a `double` holds. */
  predicate Storable(lib: LibraryText, t: TaskData)
  {
    && FS.Plain(t.id) && Untrimmed(t.id)
    && FS.Plain(t.title) && Untrimmed(t.title)
    && FS.Plain(t.description) && Untrimmed(t.description)
    && FS.Plain(t.childId) && Untrimmed(t.childId)
    && IntMin <= t.points <= IntMax
    && (t.rating.Some? ==> lib.isDouble(t.rating.value))
  }

  /** Reading back a written row gives the task: every field, the date and
      rating through the JDK's own text conversions. */
  lemma ParseFormat(lib: LibraryText, t: TaskData)
    requires Faithful(lib)
    requires IntMin <= t.points <= IntMax && (t.rating.Some? ==> lib.isDouble(t.rating.value))
    ensures ParseTask(lib, FormatTask(lib, t)) == Some(t)
  {
    var row := FormatTask(lib, t);
    ParseIntText(t.points);
    DateTextFaithful(lib, t.dueDate);
    StatusNameFacts(t.status);
    TypeNameFacts(t.taskType);
    UpperNameCase(StatusName(t.status));
    UpperNameCase(TypeName(t.taskType));
    RatingRoundTrip(lib, t.rating);
  }

  /** A status or type cell is read whatever its letter case. */
  lemma ParseIgnoresCase(lib: LibraryText, t: TaskData)
    requires Faithful(lib)
    requires IntMin <= t.points <= IntMax && (t.rating.Some? ==> lib.isDouble(t.rating.value))
    ensures var row := FormatTask(lib, t);
      ParseTask(lib, row[5 := ToLower(row[5])][6 := ToLower(row[6])]) == Some(t)
  {
    ParseFormat(lib, t);
    StatusNameFacts(t.status);
    TypeNameFacts(t.taskType);
    UpperNameCase(StatusName(t.status));
    UpperNameCase(TypeName(t.taskType));
  }

  /** Every written cell is one the file keeps as it is. */
  lemma FormatStorable(lib: LibraryText, t: TaskData)
    requires Faithful(lib)
    requires Storable(lib, t)
    ensures FS.Storable(FormatTask(lib, t))
  {
    var row := FormatTask(lib, t);
    forall i | 0 <= i < 9
      ensures FS.Plain(row[i]) && Untrimmed(row[i])
    {
      if i == 3 {
        DateTextFaithful(lib, t.dueDate);
        FS.TokenStorable(lib.showDate(t.dueDate));
      } else if i == 4 {
        IntTextIsToken(t.points);
        FS.TokenStorable(IntText(t.points));
      } else if i == 5 {
        StatusNameFacts(t.status);
        FS.TokenStorable(StatusName(t.status));
      } else if i == 6 {
        TypeNameFacts(t.taskType);
        FS.TokenStorable(TypeName(t.taskType));
      } else if i == 8 && t.rating.Some? {
        RealTextFaithful(lib, t.rating.value);
        FS.TokenStorable(lib.showReal(t.rating.value));
      }
    }
  }

  /** `saveAll` followed by `loadAll` gives back the saved tasks, in order. */
  lemma SaveThenLoad(lib: LibraryText, path: string, tasks: seq<TaskData>)
    requires Faithful(lib)
    requires forall i :: 0 <= i < |tasks| ==> Storable(lib, tasks[i])
    ensures var rows := RowsOfTasks(lib, tasks);
      FS.RowsOf(path, FS.FileLines(Header, Map(rows, FS.Present)), Header) == Ok(rows)
      && TasksOf(lib, rows) == tasks
  {
    var rows := RowsOfTasks(lib, tasks);
    forall i | 0 <= i < |rows|
      ensures FS.Storable(rows[i])
    {
      FormatStorable(lib, tasks[i]);
    }
    HeaderNotBlank();
    FS.RoundTrip(path, Header, rows);
    forall i | 0 <= i < |tasks|
      ensures Parser(lib)(Formatter(lib)(tasks[i])) == Some(tasks[i])
    {
      ParseFormat(lib, tasks[i]);
    }
    CollectMapInverse(tasks, Formatter(lib), Parser(lib));
  }

  /** The row loop of `loadAll`: each row that parses is added, the others
      are skipped. */
  method ParseRows(lib: LibraryText, rows: seq<seq<string>>) returns (tasks: seq<TaskData>)
    ensures tasks == TasksOf(lib, rows)
  {
    tasks := [];
    var i := 0;
    while i < |rows|
      invariant 0 <= i <= |rows|
      invariant tasks == Collect(rows[..i], Parser(lib))
    {
      CollectSnoc(rows, i, Parser(lib));
      var task := ParseTask(lib, rows[i]);
      assert Parser(lib)(rows[i]) == task;
      if task.Some? {
        tasks := tasks + [task.value];
      }
      i := i + 1;
    }
    assert rows[..|rows|] == rows;
  }

  /** The row loop of `saveAll`. */
  method FormatRows(lib: LibraryText, tasks: seq<TaskData>) returns (rows: seq<seq<string>>)
    ensures rows == RowsOfTasks(lib, tasks)
  {
    rows := [];
    var i := 0;
    while i < |tasks|
      invariant 0 <= i <= |tasks|
      invariant rows == Map(tasks[..i], Formatter(lib))
    {
      MapSnoc(tasks, i, Formatter(lib));
      rows := rows + [FormatTask(lib, tasks[i])];
      i := i + 1;
    }
    assert tasks[..|tasks|] == tasks;
  }

  /** `TaskRepository`: the storage for "Tasks.txt". The JDK's date and
      number text conversions are held as `lib`. */
  class TaskRepository {
    const storage: FS.FileStorage
    const lib: LibraryText

    constructor (lib: LibraryText, disk: Option<seq<string>>)
      ensures fresh(storage)
      ensures storage.filePath == FS.DataDir + "/" + FileName && storage.file == disk
      ensures this.lib == lib
    {
      this.lib := lib;
      storage := new FS.FileStorage(FileName, disk);
    }

    /** `loadAll`: the storage's rows, less those that do not parse; a
        header failure is passed on. */
    method LoadAll() returns (r: Result<seq<TaskData>, Failure>)
      modifies storage
      ensures old(storage.file).None? ==> storage.file == Some([Header])
      ensures old(storage.file).Some? ==> storage.file == old(storage.file)
      ensures var rows := FS.RowsOf(storage.filePath, storage.file.value, Header);
        (rows.Err? ==> r == Err(rows.error)) && (rows.Ok? ==> r == Ok(TasksOf(lib, rows.value)))
    {
      var rows := storage.ReadAll(Header);
      if rows.Err? {
        return Err(rows.error);
      }
      var tasks := ParseRows(lib, rows.value);
      return Ok(tasks);
    }

    /** `saveAll`: the file becomes the header and one row per task. */
    method SaveAll(tasks: seq<TaskData>)
      modifies storage
      ensures storage.file == Some(FS.FileLines(Header, Map(RowsOfTasks(lib, tasks), FS.Present)))
    {
      var rows := FormatRows(lib, tasks);
      storage.WriteAll(Header, Map(rows, FS.Present));
    }
  }
}
