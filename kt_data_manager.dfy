/** The KidTask copy's `DataManager`: tasks, wishes and children as
    comma-separated lines of "Tasks.csv", "Wishes.csv" and "Users.csv",
    each file a header line and then one line per entity.

    A file is the sequence of its lines (`None` while it does not exist);
    the reader and writer of the JDK are not part of this model. Loading
    skips blank lines and lines with too few cells, but any cell that does
    not convert, or an entity the constructors refuse, makes the whole load
    fail. Saving replaces commas in the free-text fields by spaces. */
module KTDataManager {
  import opened Base
  import opened Text
  import opened Seqs
  import opened Numbers
  import opened Failures
  import opened KTUser
  import opened KTTask
  import opened KTWish
  import KTChild
  import L = Ledger

  const Comma: char := ','

  /** The header line of the file, one string literal in the source. */
  const TasksHeader: string := "id,title,description,dueDate," + "points,status,type,childId,rating"
  /** The header line of the file, one string literal in the source. */
  const WishesHeader: string := "id,title,description,costPoints," + "minLevel,approved,requestedByChildId,approvedByUserId"
  /** The header line of the file, one string literal in the source. */
  const UsersHeader: string := "id,name,role,points," + "level,ratingSum,ratingCount"

  /** A child as "Users.csv" holds it. */
  datatype ChildRow = ChildRow(id: string, name: string, ledger: L.Ledger)

  /** `ensureFile`: a missing file is created holding the header line; an
      existing one is left as it is. */
  function Ensured(file: Option<seq<string>>, header: string): (lines: seq<string>)
    ensures file.None? ==> lines == [header]
    ensures file.Some? ==> lines == file.value
  {
    if file.None? then [header] else file.value
  }

  /** The lines after the first, which is read as the header and not
      looked at. */
  function Body(lines: seq<string>): (body: seq<string>)
    ensures lines != [] ==> [lines[0]] + body == lines
    ensures lines == [] ==> body == []
  {
    if lines == [] then [] else lines[1..]
  }

  /** `escape`: every comma becomes a space. */
  function Escape(value: string): (e: string)
    ensures Comma !in e
    ensures Comma !in value ==> e == value
  {
    ReplaceChar(value, Comma, " ")
  }

  /** `parseDouble`: a blank cell is no number; any other is read by
      `Double.parseDouble`. The outer `None` is where that throws. */
  function OptionalReal(lib: LibraryText, raw: string): (r: Option<Option<real>>)
    ensures IsBlank(raw) ==> r == Some(None)
    ensures !IsBlank(raw) ==> (r.Some? <==> lib.readReal(raw).Some?)
    ensures !IsBlank(raw) && r.Some? ==> r.value == lib.readReal(raw)
  {
    if IsBlank(raw) then Some(None)
    else match lib.readReal(raw)
      case None => None
      case Some(x) => Some(Some(x))
  }

  /** The text `saveTasks` writes for a rating. */
  function RatingText(lib: LibraryText, rating: Option<real>): string
  {
    if rating.Some? then lib.showReal(rating.value) else ""
  }

  // ---------------------------------------------------------------- tasks

  /** The cells of one line of "Tasks.csv", as `loadTasks` reads them:
      `Some(None)` for fewer than nine cells, which it skips, and `None`
      where it throws. The status and type must be a constant's exact
      name, and the task goes through the full `Task` constructor. */
  function TaskOfCells(lib: LibraryText, c: seq<string>): (r: Option<Option<TaskData>>)
    ensures |c| < 9 ==> r == Some(None)
    ensures |c| >= 9 ==>
      (r.Some? <==>
        (&& lib.readDate(c[3]).Some? && ParseInt(c[4]).Some? && StatusNamed(c[5]).Some? && TypeNamed(c[6]).Some?
         && OptionalReal(lib, c[8]).Some? && !IsBlank(c[1]) && ParseInt(c[4]).value > 0))
    ensures r.Some? && r.value.Some? ==>
      var t := r.value.value;
      && KTTask.Valid(t)
      && t.id == c[0] && t.title == c[1] && t.description == c[2] && Some(t.dueDate) == lib.readDate(c[3])
      && Some(t.points) == ParseInt(c[4]) && Some(t.status) == StatusNamed(c[5])
      && Some(t.taskType) == TypeNamed(c[6]) && t.childId == c[7] && Some(t.rating) == OptionalReal(lib, c[8])
  {
    if |c| < 9 then Some(None)
    else
      var dueDate := lib.readDate(c[3]);
      var points := ParseInt(c[4]);
      var status := StatusNamed(c[5]);
      var taskType := TypeNamed(c[6]);
      var rating := OptionalReal(lib, c[8]);
      if dueDate.None? || points.None? || status.None? || taskType.None? || rating.None? then None
      else
        match TaskRecord(Some(c[0]), Some(c[1]), Some(c[2]), dueDate, points.value, status, taskType,
                         Some(c[7]), rating.value)
        case Err(_) => None
        case Ok(t) => Some(Some(t))
  }

  /** One line after the header: a blank line is skipped, any other is
      cut at every comma. */
  function TaskOfLine(lib: LibraryText, line: string): Option<Option<TaskData>>
  {
    if IsBlank(line) then Some(None) else TaskOfCells(lib, Split(line, Comma))
  }

  /** The line `saveTasks` writes for a task. */
  function TaskLine(lib: LibraryText, t: TaskData): string
  {
    Join(TaskCells(lib, t), Comma)
  }

  /** The cells of that line, in the header's order. */
  function TaskCells(lib: LibraryText, t: TaskData): seq<string>
  {
    [t.id, Escape(t.title), Escape(t.description), lib.showDate(t.dueDate), IntText(t.points),
     StatusName(t.status), TypeName(t.taskType), t.childId, RatingText(lib, t.rating)]
  }

  function TaskReader(lib: LibraryText): string -> Option<Option<TaskData>>
  {
    line => TaskOfLine(lib, line)
  }

  function TaskWriter(lib: LibraryText): TaskData -> string
  {
    t => TaskLine(lib, t)
  }

  /** `loadTasks` on the file as it is. */
  function LoadedTasks(lib: LibraryText, file: Option<seq<string>>): (r: Result<seq<TaskData>, Failure>)
    ensures file.None? ==> r == Ok([])
    ensures r.Err? ==> r.error == DataPersistence("Failed to load tasks")
  {
    match CollectAll(Body(Ensured(file, TasksHeader)), TaskReader(lib))
    case None => Err(DataPersistence("Failed to load tasks"))
    case Some(tasks) => Ok(tasks)
  }

  /** The file `saveTasks` leaves: the header, then one line per task in
      the order given. */
  function SavedTasks(lib: LibraryText, tasks: seq<TaskData>): (file: seq<string>)
    ensures |file| == |tasks| + 1 && file[0] == TasksHeader
  {
    [TasksHeader] + Map(tasks, TaskWriter(lib))
  }

  /** The task as it reads back: commas in its title and description
      replaced by spaces. */
  function EscapedTask(t: TaskData): (e: TaskData)
    ensures Comma !in t.title && Comma !in t.description ==> e == t
  {
    t.(title := Escape(t.title), description := Escape(t.description))
  }

  /** A task whose line reads back: no comma in its id or child id, a
      title that is still not blank once its commas are spaces, points a
      Java `int` holds, and a rating a `double` holds. */
  predicate Saveable(lib: LibraryText, t: TaskData)
  {
    && Comma !in t.id && Comma !in t.childId
    && !IsBlank(Escape(t.title)) && 0 < t.points <= IntMax
    && (t.rating.Some? ==> lib.isDouble(t.rating.value))
  }

  /** A line holding a comma is never blank. */
  lemma CommaLineNotBlank(cells: seq<string>)
    requires |cells| >= 2
    ensures !IsBlank(Join(cells, Comma))
  {
    var line := Join(cells, Comma);
    assert line == cells[0] + [Comma] + Join(cells[1..], Comma);
    assert line[|cells[0]|] == Comma;
  }

  /** The cells of a written line are the cells written. */
  lemma SplitLine(cells: seq<string>)
    requires |cells| >= 1
    requires forall i :: 0 <= i < |cells| ==> Comma !in cells[i]
    ensures Split(Join(cells, Comma), Comma) == cells
  {
    SplitJoin(cells, Comma);
  }

  /** A written task line is not blank and splits back into its cells. */
  lemma TaskLineCells(lib: LibraryText, t: TaskData)
    requires Faithful(lib) && Comma !in t.id && Comma !in t.childId
    requires t.rating.Some? ==> lib.isDouble(t.rating.value)
    ensures !IsBlank(TaskLine(lib, t)) && Split(TaskLine(lib, t), Comma) == TaskCells(lib, t)
  {
    var cells := TaskCells(lib, t);
    forall i | 0 <= i < 9
      ensures Comma !in cells[i]
    {
      if i == 3 {
        DateTextFaithful(lib, t.dueDate);
      } else if i == 4 {
        IntTextIsToken(t.points);
      } else if i == 5 {
        StatusNameFacts(t.status);
      } else if i == 6 {
        TypeNameFacts(t.taskType);
      } else if i == 8 && t.rating.Some? {
        RealTextFaithful(lib, t.rating.value);
      }
    }
    SplitLine(cells);
    CommaLineNotBlank(cells);
  }

  /** The cells of a saveable task read back as the task with its commas
      escaped. */
  lemma TaskCellsRoundTrip(lib: LibraryText, t: TaskData)
    requires Faithful(lib) && Saveable(lib, t)
    ensures TaskOfCells(lib, TaskCells(lib, t)) == Some(Some(EscapedTask(t)))
  {
    var c := TaskCells(lib, t);
    DateTextFaithful(lib, t.dueDate);
    ParseIntText(t.points);
    StatusNameFacts(t.status);
    TypeNameFacts(t.taskType);
    if t.rating.Some? {
      RealTextFaithful(lib, t.rating.value);
      assert !IsBlank(c[8]) by {
        assert !IsWhitespace(c[8][0]);
      }
    }
  }

  /** One written task line reads back as the task with its commas
      escaped. */
  lemma TaskLineRoundTrip(lib: LibraryText, t: TaskData)
    requires Faithful(lib) && Saveable(lib, t)
    ensures TaskOfLine(lib, TaskLine(lib, t)) == Some(Some(EscapedTask(t)))
  {
    TaskLineCells(lib, t);
    TaskCellsRoundTrip(lib, t);
  }

  /** `saveTasks` then `loadTasks` gives back the saved tasks in order,
      with the commas of their text replaced. */
  lemma SaveThenLoadTasks(lib: LibraryText, tasks: seq<TaskData>)
    requires Faithful(lib)
    requires forall i :: 0 <= i < |tasks| ==> Saveable(lib, tasks[i])
    ensures LoadedTasks(lib, Some(SavedTasks(lib, tasks))) == Ok(Map(tasks, EscapedTask))
  {
    forall i | 0 <= i < |tasks|
      ensures TaskReader(lib)(TaskWriter(lib)(tasks[i])) == Some(Some(EscapedTask(tasks[i])))
    {
      TaskLineRoundTrip(lib, tasks[i]);
    }
    CollectAllMap(tasks, TaskWriter(lib), TaskReader(lib), EscapedTask);
  }

  /** The escaping can make a valid task unloadable: a title of commas is
      not blank, but it is written as spaces, the constructor refuses the
      blank title on the way back, and with it the whole file fails to
      load. */
  lemma CommaTitleBreaksLoad(lib: LibraryText, t: TaskData)
    requires Faithful(lib)
    requires t.title == [Comma] && 0 < t.points <= IntMax
    requires Comma !in t.id && Comma !in t.childId && (t.rating.Some? ==> lib.isDouble(t.rating.value))
    ensures KTTask.Valid(t)
    ensures LoadedTasks(lib, Some(SavedTasks(lib, [t]))) == Err(DataPersistence("Failed to load tasks"))
  {
    assert !IsBlank(t.title) by {
      assert !IsWhitespace(t.title[0]);
    }
    var line := TaskLine(lib, t);
    assert Escape(t.title) == " ";
    TaskLineCells(lib, t);
    assert TaskOfLine(lib, line) == None;
    assert Body(SavedTasks(lib, [t])) == [line];
  }

  // --------------------------------------------------------------- wishes

  /** `tokens[7].isBlank() ? null : tokens[7]`. */
  function ApproverOf(cell: string): (approver: Option<string>)
    ensures approver.None? <==> IsBlank(cell)
    ensures approver.Some? ==> approver.value == cell
  {
    if IsBlank(cell) then None else Some(cell)
  }

  /** The cells of one line of "Wishes.csv", as `loadWishes` reads them:
      `Some(None)` for fewer than eight cells, `None` where it throws. */
  function WishOfCells(c: seq<string>): (r: Option<Option<WishData>>)
    ensures |c| < 8 ==> r == Some(None)
    ensures |c| >= 8 ==>
      (r.Some? <==>
        (&& ParseInt(c[3]).Some? && ParseInt(c[4]).Some? && !IsBlank(c[1])
         && ParseInt(c[3]).value > 0 && ParseInt(c[4]).value >= 1))
    ensures r.Some? && r.value.Some? ==>
      var w := r.value.value;
      && KTWish.Valid(w)
      && w.id == c[0] && w.title == c[1] && w.description == c[2] && Some(w.costPoints) == ParseInt(c[3])
      && Some(w.minLevel) == ParseInt(c[4]) && w.approved == ParseBoolean(c[5])
      && w.requestedByChildId == c[6] && w.approvedByUserId == ApproverOf(c[7])
  {
    if |c| < 8 then Some(None)
    else
      var cost := ParseInt(c[3]);
      var minLevel := ParseInt(c[4]);
      if cost.None? || minLevel.None? then None
      else
        match WishRecord(Some(c[0]), Some(c[1]), Some(c[2]), cost.value, minLevel.value, ParseBoolean(c[5]),
                         Some(c[6]), ApproverOf(c[7]))
        case Err(_) => None
        case Ok(w) => Some(Some(w))
  }

  function WishOfLine(line: string): Option<Option<WishData>>
  {
    if IsBlank(line) then Some(None) else WishOfCells(Split(line, Comma))
  }

  /** The line `saveWishes` writes for a wish; no approver is written as
      the empty cell. */
  function WishLine(w: WishData): string
  {
    Join(WishCells(w), Comma)
  }

  function WishCells(w: WishData): seq<string>
  {
    [w.id, Escape(w.title), Escape(w.description), IntText(w.costPoints), IntText(w.minLevel),
     BoolText(w.approved), w.requestedByChildId,
     if w.approvedByUserId.Some? then w.approvedByUserId.value else ""]
  }

  /** `loadWishes` on the file as it is. */
  function LoadedWishes(file: Option<seq<string>>): (r: Result<seq<WishData>, Failure>)
    ensures file.None? ==> r == Ok([])
    ensures r.Err? ==> r.error == DataPersistence("Failed to load wishes")
  {
    match CollectAll(Body(Ensured(file, WishesHeader)), WishOfLine)
    case None => Err(DataPersistence("Failed to load wishes"))
    case Some(wishes) => Ok(wishes)
  }

  /** The file `saveWishes` leaves. */
  function SavedWishes(wishes: seq<WishData>): (file: seq<string>)
    ensures |file| == |wishes| + 1 && file[0] == WishesHeader
  {
    [WishesHeader] + Map(wishes, WishLine)
  }

  /** The wish as it reads back: commas in its title and description
      replaced, and a blank approver id gone. */
  function EscapedWish(w: WishData): (e: WishData)
    ensures Comma !in w.title && Comma !in w.description && (w.approvedByUserId.Some? ==> !IsBlank(w.approvedByUserId.value))
      ==> e == w
  {
    w.(title := Escape(w.title), description := Escape(w.description),
       approvedByUserId := if w.approvedByUserId.Some? && IsBlank(w.approvedByUserId.value) then None else w.approvedByUserId)
  }

  /** A wish whose line reads back. */
  predicate SaveableWish(w: WishData)
  {
    && Comma !in w.id && Comma !in w.requestedByChildId
    && (w.approvedByUserId.Some? ==> Comma !in w.approvedByUserId.value)
    && !IsBlank(Escape(w.title)) && 0 < w.costPoints <= IntMax && 1 <= w.minLevel <= IntMax
  }

  lemma WishLineCells(w: WishData)
    requires SaveableWish(w)
    ensures !IsBlank(WishLine(w)) && Split(WishLine(w), Comma) == WishCells(w)
  {
    var cells := WishCells(w);
    forall i | 0 <= i < 8
      ensures Comma !in cells[i]
    {
      if i == 3 {
        IntTextIsToken(w.costPoints);
      } else if i == 4 {
        IntTextIsToken(w.minLevel);
      }
    }
    SplitLine(cells);
    CommaLineNotBlank(cells);
  }

  lemma WishCellsRoundTrip(w: WishData)
    requires SaveableWish(w)
    ensures WishOfCells(WishCells(w)) == Some(Some(EscapedWish(w)))
  {
    ParseIntText(w.costPoints);
    ParseIntText(w.minLevel);
    ParseBoolText(w.approved);
  }

  /** One written wish line reads back as the wish escaped. */
  lemma WishLineRoundTrip(w: WishData)
    requires SaveableWish(w)
    ensures WishOfLine(WishLine(w)) == Some(Some(EscapedWish(w)))
  {
    WishLineCells(w);
    WishCellsRoundTrip(w);
  }

  /** `saveWishes` then `loadWishes` gives back the saved wishes in order,
      with their text escaped and blank approver ids dropped. */
  lemma SaveThenLoadWishes(wishes: seq<WishData>)
    requires forall i :: 0 <= i < |wishes| ==> SaveableWish(wishes[i])
    ensures LoadedWishes(Some(SavedWishes(wishes))) == Ok(Map(wishes, EscapedWish))
  {
    forall i | 0 <= i < |wishes|
      ensures WishOfLine(WishLine(wishes[i])) == Some(Some(EscapedWish(wishes[i])))
    {
      WishLineRoundTrip(wishes[i]);
    }
    CollectAllMap(wishes, WishLine, WishOfLine, EscapedWish);
  }

  // ------------------------------------------------------------- children

  /** The cells of one line of "Users.csv", as `loadChildren` reads
      them: `Some(None)` for a line it skips, which is one of fewer than
      seven cells or any user whose role is not CHILD, and `None` where it
      throws, which includes a role that is no constant's exact name. */
  function ChildOfCells(lib: LibraryText, c: seq<string>): (r: Option<Option<ChildRow>>)
    ensures |c| < 7 ==> r == Some(None)
    ensures |c| >= 7 && RoleNamed(c[2]).None? ==> r.None?
    ensures |c| >= 7 && RoleNamed(c[2]).Some? && RoleNamed(c[2]).value != CHILD ==> r == Some(None)
    ensures r.Some? && r.value.Some? ==>
      var row := r.value.value;
      && RoleNamed(c[2]) == Some(CHILD)
      && row.id == c[0] && row.name == c[1] && !IsBlank(row.name) && L.Valid(row.ledger)
      && Some(row.ledger.points) == ParseInt(c[3]) && Some(row.ledger.level) == ParseInt(c[4])
      && Some(row.ledger.ratingSum) == lib.readReal(c[5]) && Some(row.ledger.ratingCount) == ParseInt(c[6])
  {
    if |c| < 7 then Some(None)
    else
      match RoleNamed(c[2])
      case None => None
      case Some(role) =>
        if role != CHILD then Some(None)
        else
          var points := ParseInt(c[3]);
          var level := ParseInt(c[4]);
          var ratingSum := lib.readReal(c[5]);
          var ratingCount := ParseInt(c[6]);
          if points.None? || level.None? || ratingSum.None? || ratingCount.None? then None
          else if KTChild.CheckChild(Some(c[1]), points.value, level.value).Fail? then None
          else Some(Some(ChildRow(c[0], c[1], L.Ledger(points.value, level.value, ratingSum.value, ratingCount.value))))
  }

  function ChildOfLine(lib: LibraryText, line: string): Option<Option<ChildRow>>
  {
    if IsBlank(line) then Some(None) else ChildOfCells(lib, Split(line, Comma))
  }

  /** The line `saveChildren` writes for a child. */
  function ChildLine(lib: LibraryText, c: ChildRow): string
  {
    Join(ChildCells(lib, c), Comma)
  }

  function ChildCells(lib: LibraryText, c: ChildRow): seq<string>
  {
    [c.id, Escape(c.name), RoleName(CHILD), IntText(c.ledger.points), IntText(c.ledger.level),
     lib.showReal(c.ledger.ratingSum), IntText(c.ledger.ratingCount)]
  }

  function ChildReader(lib: LibraryText): string -> Option<Option<ChildRow>>
  {
    line => ChildOfLine(lib, line)
  }

  function ChildWriter(lib: LibraryText): ChildRow -> string
  {
    c => ChildLine(lib, c)
  }

  /** `loadChildren` on the file as it is. */
  function LoadedChildren(lib: LibraryText, file: Option<seq<string>>): (r: Result<seq<ChildRow>, Failure>)
    ensures file.None? ==> r == Ok([])
    ensures r.Err? ==> r.error == DataPersistence("Failed to load users")
  {
    match CollectAll(Body(Ensured(file, UsersHeader)), ChildReader(lib))
    case None => Err(DataPersistence("Failed to load users"))
    case Some(children) => Ok(children)
  }

  /** The file `saveChildren` leaves: the header and the children only, so
      any parent or teacher line the file held is gone. */
  function SavedChildren(lib: LibraryText, children: seq<ChildRow>): (file: seq<string>)
    ensures |file| == |children| + 1 && file[0] == UsersHeader
  {
    [UsersHeader] + Map(children, ChildWriter(lib))
  }

  function EscapedChild(c: ChildRow): (e: ChildRow)
    ensures Comma !in c.name ==> e == c
  {
    c.(name := Escape(c.name))
  }

  /** A child whose line reads back: the ledger the `Child` setters keep,
      counters a Java `int` holds, and a rating sum a `double` holds. */
  predicate SaveableChild(lib: LibraryText, c: ChildRow)
  {
    && Comma !in c.id && !IsBlank(Escape(c.name)) && L.Valid(c.ledger)
    && c.ledger.points <= IntMax && c.ledger.level <= IntMax && IntMin <= c.ledger.ratingCount <= IntMax
    && lib.isDouble(c.ledger.ratingSum)
  }

  lemma ChildLineCells(lib: LibraryText, c: ChildRow)
    requires Faithful(lib) && SaveableChild(lib, c)
    ensures !IsBlank(ChildLine(lib, c)) && Split(ChildLine(lib, c), Comma) == ChildCells(lib, c)
  {
    var cells := ChildCells(lib, c);
    forall i | 0 <= i < 7
      ensures Comma !in cells[i]
    {
      if i == 3 {
        IntTextIsToken(c.ledger.points);
      } else if i == 4 {
        IntTextIsToken(c.ledger.level);
      } else if i == 5 {
        RealTextFaithful(lib, c.ledger.ratingSum);
      } else if i == 6 {
        IntTextIsToken(c.ledger.ratingCount);
      }
    }
    SplitLine(cells);
    CommaLineNotBlank(cells);
  }

  lemma ChildCellsRoundTrip(lib: LibraryText, c: ChildRow)
    requires Faithful(lib) && SaveableChild(lib, c)
    ensures ChildOfCells(lib, ChildCells(lib, c)) == Some(Some(EscapedChild(c)))
  {
    ParseIntText(c.ledger.points);
    ParseIntText(c.ledger.level);
    ParseIntText(c.ledger.ratingCount);
    RealTextFaithful(lib, c.ledger.ratingSum);
  }

  /** One written child line reads back as the child with its name
      escaped. */
  lemma ChildLineRoundTrip(lib: LibraryText, c: ChildRow)
    requires Faithful(lib) && SaveableChild(lib, c)
    ensures ChildOfLine(lib, ChildLine(lib, c)) == Some(Some(EscapedChild(c)))
  {
    ChildLineCells(lib, c);
    ChildCellsRoundTrip(lib, c);
  }

  /** `saveChildren` then `loadChildren` gives back the saved children in
      order, with the commas of their names replaced. */
  lemma SaveThenLoadChildren(lib: LibraryText, children: seq<ChildRow>)
    requires Faithful(lib)
    requires forall i :: 0 <= i < |children| ==> SaveableChild(lib, children[i])
    ensures LoadedChildren(lib, Some(SavedChildren(lib, children))) == Ok(Map(children, EscapedChild))
  {
    forall i | 0 <= i < |children|
      ensures ChildReader(lib)(ChildWriter(lib)(children[i])) == Some(Some(EscapedChild(children[i])))
    {
      ChildLineRoundTrip(lib, children[i]);
    }
    CollectAllMap(children, ChildWriter(lib), ChildReader(lib), EscapedChild);
  }

  /** A role cell that is not a constant's exact name, such as a
      lower-case "child", makes the whole file fail to load. */
  lemma UnknownRoleBreaksLoad(lib: LibraryText, header: string, id: string, name: string)
    requires Comma !in id && Comma !in name
    ensures LoadedChildren(lib, Some([header, Join([id, name, "child", "0", "1", "0.0", "0"], Comma)])).Err?
  {
    var cells := [id, name, "child", "0", "1", "0.0", "0"];
    forall i | 0 <= i < 7
      ensures Comma !in cells[i]
    {
    }
    SplitLine(cells);
    CommaLineNotBlank(cells);
    assert RoleNamed("child").None?;
  }

  // ---------------------------------------------------------------- loops

  /** The line loop of `loadTasks`. */
  method ReadTasks(lib: LibraryText, lines: seq<string>) returns (r: Option<seq<TaskData>>)
    ensures r == CollectAll(lines, TaskReader(lib))
  {
    var tasks := [];
    var i := 0;
    while i < |lines|
      invariant 0 <= i <= |lines|
      invariant CollectAll(lines[..i], TaskReader(lib)) == Some(tasks)
    {
      CollectAllSnoc(lines, i, TaskReader(lib));
      var task := TaskOfLine(lib, lines[i]);
      if task.None? {
        CollectAllStaysNone(lines, i + 1, TaskReader(lib));
        return None;
      }
      if task.value.Some? {
        tasks := tasks + [task.value.value];
      }
      i := i + 1;
    }
    assert lines[..|lines|] == lines;
    return Some(tasks);
  }

  /** The line loop of `saveTasks`. */
  method WriteTasks(lib: LibraryText, tasks: seq<TaskData>) returns (lines: seq<string>)
    ensures lines == SavedTasks(lib, tasks)
  {
    lines := [TasksHeader];
    var i := 0;
    while i < |tasks|
      invariant 0 <= i <= |tasks|
      invariant lines == [TasksHeader] + Map(tasks[..i], TaskWriter(lib))
    {
      MapSnoc(tasks, i, TaskWriter(lib));
      lines := lines + [TaskLine(lib, tasks[i])];
      i := i + 1;
    }
    assert tasks[..|tasks|] == tasks;
  }

  /** The line loop of `loadWishes`. */
  method ReadWishes(lines: seq<string>) returns (r: Option<seq<WishData>>)
    ensures r == CollectAll(lines, WishOfLine)
  {
    var wishes := [];
    var i := 0;
    while i < |lines|
      invariant 0 <= i <= |lines|
      invariant CollectAll(lines[..i], WishOfLine) == Some(wishes)
    {
      CollectAllSnoc(lines, i, WishOfLine);
      var wish := WishOfLine(lines[i]);
      if wish.None? {
        CollectAllStaysNone(lines, i + 1, WishOfLine);
        return None;
      }
      if wish.value.Some? {
        wishes := wishes + [wish.value.value];
      }
      i := i + 1;
    }
    assert lines[..|lines|] == lines;
    return Some(wishes);
  }

  /** The line loop of `saveWishes`. */
  method WriteWishes(wishes: seq<WishData>) returns (lines: seq<string>)
    ensures lines == SavedWishes(wishes)
  {
    lines := [WishesHeader];
    var i := 0;
    while i < |wishes|
      invariant 0 <= i <= |wishes|
      invariant lines == [WishesHeader] + Map(wishes[..i], WishLine)
    {
      MapSnoc(wishes, i, WishLine);
      lines := lines + [WishLine(wishes[i])];
      i := i + 1;
    }
    assert wishes[..|wishes|] == wishes;
  }

  /** The line loop of `loadChildren`. */
  method ReadChildren(lib: LibraryText, lines: seq<string>) returns (r: Option<seq<ChildRow>>)
    ensures r == CollectAll(lines, ChildReader(lib))
  {
    var children := [];
    var i := 0;
    while i < |lines|
      invariant 0 <= i <= |lines|
      invariant CollectAll(lines[..i], ChildReader(lib)) == Some(children)
    {
      CollectAllSnoc(lines, i, ChildReader(lib));
      var child := ChildOfLine(lib, lines[i]);
      if child.None? {
        CollectAllStaysNone(lines, i + 1, ChildReader(lib));
        return None;
      }
      if child.value.Some? {
        children := children + [child.value.value];
      }
      i := i + 1;
    }
    assert lines[..|lines|] == lines;
    return Some(children);
  }

  /** The line loop of `saveChildren`. */
  method WriteChildren(lib: LibraryText, children: seq<ChildRow>) returns (lines: seq<string>)
    ensures lines == SavedChildren(lib, children)
  {
    lines := [UsersHeader];
    var i := 0;
    while i < |children|
      invariant 0 <= i <= |children|
      invariant lines == [UsersHeader] + Map(children[..i], ChildWriter(lib))
    {
      MapSnoc(children, i, ChildWriter(lib));
      lines := lines + [ChildLine(lib, children[i])];
      i := i + 1;
    }
    assert children[..|children|] == children;
  }

  /** `DataManager`: the three files. The JDK's date and number text
      conversions are held as `lib`. */
  class DataManager {
    var tasksFile: Option<seq<string>>
    var wishesFile: Option<seq<string>>
    var usersFile: Option<seq<string>>
    const lib: LibraryText

    constructor (lib: LibraryText, tasksFile: Option<seq<string>>, wishesFile: Option<seq<string>>,
                 usersFile: Option<seq<string>>)
      ensures this.lib == lib && this.tasksFile == tasksFile && this.wishesFile == wishesFile
      ensures this.usersFile == usersFile
    {
      this.lib := lib;
      this.tasksFile := tasksFile;
      this.wishesFile := wishesFile;
      this.usersFile := usersFile;
    }

    /** `loadTasks`: the file is created if missing, then read. */
    method LoadTasks() returns (r: Result<seq<TaskData>, Failure>)
      modifies this`tasksFile
      ensures tasksFile == Some(Ensured(old(tasksFile), TasksHeader))
      ensures r == LoadedTasks(lib, old(tasksFile))
    {
      tasksFile := Some(Ensured(tasksFile, TasksHeader));
      var tasks := ReadTasks(lib, Body(tasksFile.value));
      if tasks.None? {
        return Err(DataPersistence("Failed to load tasks"));
      }
      return Ok(tasks.value);
    }

    /** `saveTasks`. */
    method SaveTasks(tasks: seq<TaskData>)
      modifies this`tasksFile
      ensures tasksFile == Some(SavedTasks(lib, tasks))
    {
      var lines := WriteTasks(lib, tasks);
      tasksFile := Some(lines);
    }

    /** `loadWishes`. */
    method LoadWishes() returns (r: Result<seq<WishData>, Failure>)
      modifies this`wishesFile
      ensures wishesFile == Some(Ensured(old(wishesFile), WishesHeader))
      ensures r == LoadedWishes(old(wishesFile))
    {
      wishesFile := Some(Ensured(wishesFile, WishesHeader));
      var wishes := ReadWishes(Body(wishesFile.value));
      if wishes.None? {
        return Err(DataPersistence("Failed to load wishes"));
      }
      return Ok(wishes.value);
    }

    /** `saveWishes`. */
    method SaveWishes(wishes: seq<WishData>)
      modifies this`wishesFile
      ensures wishesFile == Some(SavedWishes(wishes))
    {
      var lines := WriteWishes(wishes);
      wishesFile := Some(lines);
    }

    /** `loadChildren`. */
    method LoadChildren() returns (r: Result<seq<ChildRow>, Failure>)
      modifies this`usersFile
      ensures usersFile == Some(Ensured(old(usersFile), UsersHeader))
      ensures r == LoadedChildren(lib, old(usersFile))
    {
      usersFile := Some(Ensured(usersFile, UsersHeader));
      var children := ReadChildren(lib, Body(usersFile.value));
      if children.None? {
        return Err(DataPersistence("Failed to load users"));
      }
      return Ok(children.value);
    }

    /** `saveChildren`. */
    method SaveChildren(children: seq<ChildRow>)
      modifies this`usersFile
      ensures usersFile == Some(SavedChildren(lib, children))
    {
      var lines := WriteChildren(lib, children);
      usersFile := Some(lines);
    }
  }
}
