/** The kid_task2 `UserRepository`: users as rows of the pipe-delimited
    file "Users.txt". Every row has seven cells; a child's ledger fills the
    last four, other users have fixed zeros there. */
module K2UserRepository {
  import opened Base
  import opened Text
  import opened Seqs
  import opened Numbers
  import opened Failures
  import opened K2Child
  import L = Ledger
  import FS = K2FileStorage

  const FileName: string := "Users.txt"
  /** The header line of the file, one string literal in the source. */
  const Header: string := "id|name|role|" + "points|level|ratingSum|ratingCount"

  lemma HeaderNotBlank()
    ensures !TrimsToEmpty(Header)
  {
    assert Header[0] == 'i';
    NotTrimsToEmpty(Header, 0);
  }

  /** The child branch of `parseUser`: the four ledger cells are read, then
      the `Child` constructor validates points and level. */
  function ParseChild(lib: LibraryText, id: string, name: string, cells: seq<string>): (r: Option<Account>)
    requires |cells| == 4
    ensures r.Some? <==>
      (&& ParseInt(cells[0]).Some? && ParseInt(cells[1]).Some? && lib.readReal(cells[2]).Some?
       && ParseInt(cells[3]).Some? && ParseInt(cells[0]).value >= 0 && ParseInt(cells[1]).value >= 1)
    ensures r.Some? ==>
      r.value == Kid(id, name, L.Ledger(ParseInt(cells[0]).value, ParseInt(cells[1]).value,
                                        lib.readReal(cells[2]).value, ParseInt(cells[3]).value))
  {
    var points := ParseInt(cells[0]);
    var level := ParseInt(cells[1]);
    var ratingSum := lib.readReal(cells[2]);
    var ratingCount := ParseInt(cells[3]);
    if points.None? || level.None? || ratingSum.None? || ratingCount.None? then None
    else
      match ChildRecord(id, name, points.value, level.value, ratingSum.value, ratingCount.value)
      case Ok(a) => Some(a)
      case Err(_) => None
  }

  /** `parseUser`: `None` where it throws. A row of fewer than seven cells
      or an unknown role is refused; role CHILD builds a child from the
      ledger cells; any other role builds a plain user and ignores them. */
  function ParseUser(lib: LibraryText, row: seq<string>): (r: Option<Account>)
    ensures |row| < 7 ==> r.None?
    ensures |row| >= 7 && RoleNamed(ToUpper(row[2])).None? ==> r.None?
    ensures |row| >= 7 && RoleNamed(ToUpper(row[2])) == Some(CHILD) ==> r == ParseChild(lib, row[0], row[1], row[3..7])
    ensures |row| >= 7 && RoleNamed(ToUpper(row[2])).Some? && RoleNamed(ToUpper(row[2])) != Some(CHILD) ==>
      r == Some(Member(row[0], row[1], RoleNamed(ToUpper(row[2])).value))
    ensures r.Some? ==> r.value.id == row[0] && r.value.name == row[1] && Some(r.value.RoleOf()) == RoleNamed(ToUpper(row[2]))
    ensures r.Some? && r.value.Kid? ==> L.Valid(r.value.ledger)
  {
    if |row| < 7 then None
    else
      match RoleNamed(ToUpper(row[2]))
      case None => None
      case Some(role) =>
        if role == CHILD then ParseChild(lib, row[0], row[1], row[3..7])
        else Some(Member(row[0], row[1], role))
  }

  /** `formatUser`: id, name and role name, then a child's ledger, or
      "0", "0", "0.0", "0" for any other user. */
  function FormatUser(lib: LibraryText, a: Account): (row: seq<string>)
    ensures |row| == 7
    ensures row[2] == RoleName(a.RoleOf())
    ensures a.Member? ==> row[3..] == ["0", "0", "0.0", "0"]
  {
    [a.id, a.name, RoleName(a.RoleOf())]
      + (match a
         case Kid(_, _, l) => [IntText(l.points), IntText(l.level), lib.showReal(l.ratingSum), IntText(l.ratingCount)]
         case Member(_, _, _) => ["0", "0", "0.0", "0"])
  }

  function Parser(lib: LibraryText): seq<string> -> Option<Account>
  {
    row => ParseUser(lib, row)
  }

  function Formatter(lib: LibraryText): Account -> seq<string>
  {
    a => FormatUser(lib, a)
  }

  /** What `loadAll` keeps of the rows: every row that parses, in file
      order. */
  function UsersOf(lib: LibraryText, rows: seq<seq<string>>): seq<Account>
  {
    Collect(rows, Parser(lib))
  }

  /** The rows `saveAll` hands to the storage. */
  function RowsOfUsers(lib: LibraryText, users: seq<Account>): seq<seq<string>>
  {
    Map(users, Formatter(lib))
  }

  /** A user the file gives back: id and name the escaping leaves alone
      and without surrounding blanks; a child with a valid ledger whose
      counts fit Java's `int` and whose rating sum a `double` holds; a
      plain user whose role is not CHILD. */
  predicate Storable(lib: LibraryText, a: Account)
  {
    && FS.Plain(a.id) && Untrimmed(a.id)
    && FS.Plain(a.name) && Untrimmed(a.name)
    && (a.Kid? ==>
          && L.Valid(a.ledger) && a.ledger.points <= IntMax && a.ledger.level <= IntMax
          && IntMin <= a.ledger.ratingCount <= IntMax && lib.isDouble(a.ledger.ratingSum))
    && (a.Member? ==> a.role != CHILD)
  }

  /** Every user `loadAll` returns that is a child has a valid ledger:
      rows with negative points or a level below 1 are skipped. */
  lemma LoadedChildrenValid(lib: LibraryText, rows: seq<seq<string>>)
    ensures forall a :: a in UsersOf(lib, rows) && a.Kid? ==> L.Valid(a.ledger)
  {
    forall a | a in UsersOf(lib, rows) && a.Kid?
      ensures L.Valid(a.ledger)
    {
      InCollect(rows, Parser(lib), a);
    }
  }

  /** Reading back a written child row gives the child. */
  lemma ParseFormatChild(lib: LibraryText, a: Account)
    requires Faithful(lib)
    requires a.Kid? && L.Valid(a.ledger) && a.ledger.points <= IntMax && a.ledger.level <= IntMax
    requires IntMin <= a.ledger.ratingCount <= IntMax && lib.isDouble(a.ledger.ratingSum)
    ensures ParseUser(lib, FormatUser(lib, a)) == Some(a)
  {
    var row := FormatUser(lib, a);
    var l := a.ledger;
    ParseIntText(l.points);
    ParseIntText(l.level);
    ParseIntText(l.ratingCount);
    RealTextFaithful(lib, l.ratingSum);
    RoleNameFacts(CHILD);
    UpperNameCase(RoleName(CHILD));
    assert row[3..7] == [IntText(l.points), IntText(l.level), lib.showReal(l.ratingSum), IntText(l.ratingCount)];
  }

  /** Reading back a written row gives the user: id, name, role, and a
      child's whole ledger. */
  lemma ParseFormat(lib: LibraryText, a: Account)
    requires Faithful(lib)
    requires a.Kid? ==> L.Valid(a.ledger) && a.ledger.points <= IntMax && a.ledger.level <= IntMax
    requires a.Kid? ==> IntMin <= a.ledger.ratingCount <= IntMax && lib.isDouble(a.ledger.ratingSum)
    requires a.Member? ==> a.role != CHILD
    ensures ParseUser(lib, FormatUser(lib, a)) == Some(a)
  {
    if a.Kid? {
      ParseFormatChild(lib, a);
    } else {
      RoleNameFacts(a.role);
      UpperNameCase(RoleName(a.role));
    }
  }

  /** A plain user that carries role CHILD is written with level "0", so
      reading it back builds a child, which refuses the level: the row is
      lost. */
  lemma PlainUserWithChildRoleLost(lib: LibraryText, id: string, name: string)
    ensures ParseUser(lib, FormatUser(lib, Member(id, name, CHILD))) == None
  {
    var row := FormatUser(lib, Member(id, name, CHILD));
    RoleNameFacts(CHILD);
    UpperNameCase(RoleName(CHILD));
    assert row[3..7] == ["0", "0", "0.0", "0"];
    assert ParseInt("0") == Some(0) by {
      ParseIntText(0);
      assert IntText(0) == "0";
    }
  }

  /** Every written cell is one the file keeps as it is. */
  lemma FormatStorable(lib: LibraryText, a: Account)
    requires Faithful(lib)
    requires Storable(lib, a)
    ensures FS.Storable(FormatUser(lib, a))
  {
    var row := FormatUser(lib, a);
    forall i | 0 <= i < 7
      ensures FS.Plain(row[i]) && Untrimmed(row[i])
    {
      if i == 2 {
        RoleNameFacts(a.RoleOf());
        FS.TokenStorable(RoleName(a.RoleOf()));
      } else if i >= 3 && a.Kid? {
        var l := a.ledger;
        if i == 3 {
          IntTextIsToken(l.points);
          FS.TokenStorable(IntText(l.points));
        } else if i == 4 {
          IntTextIsToken(l.level);
          FS.TokenStorable(IntText(l.level));
        } else if i == 5 {
          RealTextFaithful(lib, l.ratingSum);
          FS.TokenStorable(lib.showReal(l.ratingSum));
        } else {
          IntTextIsToken(l.ratingCount);
          FS.TokenStorable(IntText(l.ratingCount));
        }
      }
    }
  }

  /** `saveAll` followed by `loadAll` gives back the saved users, in
      order. */
  lemma SaveThenLoad(lib: LibraryText, path: string, users: seq<Account>)
    requires Faithful(lib)
    requires forall i :: 0 <= i < |users| ==> Storable(lib, users[i])
    ensures var rows := RowsOfUsers(lib, users);
      FS.RowsOf(path, FS.FileLines(Header, Map(rows, FS.Present)), Header) == Ok(rows)
      && UsersOf(lib, rows) == users
  {
    var rows := RowsOfUsers(lib, users);
    forall i | 0 <= i < |rows|
      ensures FS.Storable(rows[i])
    {
      FormatStorable(lib, users[i]);
    }
    HeaderNotBlank();
    FS.RoundTrip(path, Header, rows);
    forall i | 0 <= i < |users|
      ensures Parser(lib)(Formatter(lib)(users[i])) == Some(users[i])
    {
      ParseFormat(lib, users[i]);
    }
    CollectMapInverse(users, Formatter(lib), Parser(lib));
  }

  /** The row loop of `loadAll`: each row that parses is added, the others
      are skipped. */
  method ParseRows(lib: LibraryText, rows: seq<seq<string>>) returns (users: seq<Account>)
    ensures users == UsersOf(lib, rows)
  {
    users := [];
    var i := 0;
    while i < |rows|
      invariant 0 <= i <= |rows|
      invariant users == Collect(rows[..i], Parser(lib))
    {
      CollectSnoc(rows, i, Parser(lib));
      var user := ParseUser(lib, rows[i]);
      assert Parser(lib)(rows[i]) == user;
      if user.Some? {
        users := users + [user.value];
      }
      i := i + 1;
    }
    assert rows[..|rows|] == rows;
  }

  /** The row loop of `saveAll`. */
  method FormatRows(lib: LibraryText, users: seq<Account>) returns (rows: seq<seq<string>>)
    ensures rows == RowsOfUsers(lib, users)
  {
    rows := [];
    var i := 0;
    while i < |users|
      invariant 0 <= i <= |users|
      invariant rows == Map(users[..i], Formatter(lib))
    {
      MapSnoc(users, i, Formatter(lib));
      rows := rows + [FormatUser(lib, users[i])];
      i := i + 1;
    }
    assert users[..|users|] == users;
  }

  /** `UserRepository`: the storage for "Users.txt". */
  class UserRepository {
    const storage: FS.FileStorage
    const lib: LibraryText

    constructor (lib: LibraryText, disk: Option<seq<string>>)
      ensures fresh(storage)
      ensures storage.filePath == FS.DataDir + "/" + FileName && storage.file == disk
      ensures this.lib == lib
    {
      this.lib := lib;
      storage := new FS.FileStorage(FileName, disk);
    }

    /** `loadAll`: the storage's rows, less those that do not parse; a
        header failure is passed on. */
    method LoadAll() returns (r: Result<seq<Account>, Failure>)
      modifies storage
      ensures old(storage.file).None? ==> storage.file == Some([Header])
      ensures old(storage.file).Some? ==> storage.file == old(storage.file)
      ensures var rows := FS.RowsOf(storage.filePath, storage.file.value, Header);
        (rows.Err? ==> r == Err(rows.error)) && (rows.Ok? ==> r == Ok(UsersOf(lib, rows.value)))
    {
      var rows := storage.ReadAll(Header);
      if rows.Err? {
        return Err(rows.error);
      }
      var users := ParseRows(lib, rows.value);
      return Ok(users);
    }

    /** `saveAll`: the file becomes the header and one row per user. */
    method SaveAll(users: seq<Account>)
      modifies storage
      ensures storage.file == Some(FS.FileLines(Header, Map(RowsOfUsers(lib, users), FS.Present)))
    {
      var rows := FormatRows(lib, users);
      storage.WriteAll(Header, Map(rows, FS.Present));
    }
  }
}
