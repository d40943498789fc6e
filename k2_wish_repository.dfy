/** The kid_task2 `WishRepository`: wishes as rows of the pipe-delimited
    file "Wishes.txt", one column per field. */
module K2WishRepository {
  import opened Base
  import opened Text
  import opened Seqs
  import opened Numbers
  import opened Failures
  import opened K2Wish
  import FS = K2FileStorage

  const FileName: string := "Wishes.txt"
  /** The header line of the file, one string literal in the source. */
  const Header: string := "id|title|description|costPoints|minLevel|" + "type|status|requestedByChildId|approvedByUserId"

  lemma HeaderNotBlank()
    ensures !TrimsToEmpty(Header)
  {
    assert Header[0] == 'i';
    NotTrimsToEmpty(Header, 0);
  }

  /** `parseString`: a blank cell is no approver; any other is trimmed. */
  function ApproverOf(cell: string): (approver: Option<string>)
    ensures approver.None? <==> TrimsToEmpty(cell)
    ensures approver.Some? ==> approver.value == Trim(cell) && approver.value != [] && Untrimmed(approver.value)
  {
    if TrimsToEmpty(cell) then None
    else
      TrimSpec(cell);
      Some(Trim(cell))
  }

  /** The approver column `formatWish` writes: the id, or "" for none. */
  function ApproverText(approver: Option<string>): string
  {
    if approver.Some? then approver.value else ""
  }

  /** No approver reads back as none, and so does one whose id is blank;
      any other id reads back trimmed, so an id without surrounding blanks
      reads back as itself. */
  lemma ApproverRoundTrip(approver: Option<string>)
    ensures approver.None? ==> ApproverOf(ApproverText(approver)) == None
    ensures approver.Some? && TrimsToEmpty(approver.value) ==> ApproverOf(ApproverText(approver)) == None
    ensures approver.Some? && approver.value != [] && Untrimmed(approver.value) ==>
      ApproverOf(ApproverText(approver)) == approver
  {
    if approver.None? {
      TrimSpec("");
    } else if approver.value != [] && Untrimmed(approver.value) {
      TrimOfUntrimmed(approver.value);
    }
  }

  /** `parseWish`: `None` where it throws, which is for a row of fewer than
      nine cells, an unreadable cost or minimum level, or a type or status
      that is not a constant's name once upper-cased. */
  function ParseWish(row: seq<string>): (r: Option<WishData>)
    ensures |row| < 9 ==> r.None?
    ensures |row| >= 9 ==>
      (r.Some? <==> (ParseInt(row[3]).Some? && ParseInt(row[4]).Some?
                     && TypeNamed(ToUpper(row[5])).Some? && StatusNamed(ToUpper(row[6])).Some?))
    ensures r.Some? ==>
      (r.value.id == row[0] && r.value.title == row[1] && r.value.description == row[2]
       && Some(r.value.costPoints) == ParseInt(row[3]) && Some(r.value.minLevel) == ParseInt(row[4])
       && Some(r.value.wishType) == TypeNamed(ToUpper(row[5])) && Some(r.value.status) == StatusNamed(ToUpper(row[6]))
       && r.value.requestedByChildId == row[7] && r.value.approvedByUserId == ApproverOf(row[8]))
  {
    if |row| < 9 then None
    else
      var cost := ParseInt(row[3]);
      var minLevel := ParseInt(row[4]);
      var wishType := TypeNamed(ToUpper(row[5]));
      var status := StatusNamed(ToUpper(row[6]));
      if cost.None? || minLevel.None? || wishType.None? || status.None? then None
      else
        match WishRecord(Some(row[0]), Some(row[1]), Some(row[2]), cost.value, minLevel.value, wishType,
                         status, Some(row[7]), ApproverOf(row[8]))
        case Ok(w) => Some(w)
        case Err(_) => None
  }

  /** `formatWish`: nine cells in header order. */
  function FormatWish(w: WishData): (row: seq<string>)
    ensures |row| == 9
    ensures row[8] == "" <==> (w.approvedByUserId.None? || w.approvedByUserId.value == "")
  {
    [w.id, w.title, w.description, IntText(w.costPoints), IntText(w.minLevel), TypeName(w.wishType),
     StatusName(w.status), w.requestedByChildId, ApproverText(w.approvedByUserId)]
  }

  /** What `loadAll` keeps of the rows: every row that parses, in file
      order. */
  function WishesOf(rows: seq<seq<string>>): seq<WishData>
  {
    Collect(rows, ParseWish)
  }

  /** The rows `saveAll` hands to the storage. */
  function RowsOfWishes(wishes: seq<WishData>): seq<seq<string>>
  {
    Map(wishes, FormatWish)
  }

  /** A wish whose row survives the file: text fields the escaping leaves
      alone and without surrounding blanks, an approver id that is not
      empty, numbers within Java's `int`. */
  predicate Storable(w: WishData)
  {
    && FS.Plain(w.id) && Untrimmed(w.id)
    && FS.Plain(w.title) && Untrimmed(w.title)
    && FS.Plain(w.description) && Untrimmed(w.description)
    && FS.Plain(w.requestedByChildId) && Untrimmed(w.requestedByChildId)
    && (w.approvedByUserId.Some? ==>
          FS.Plain(w.approvedByUserId.value) && Untrimmed(w.approvedByUserId.value) && w.approvedByUserId.value != [])
    && IntMin <= w.costPoints <= IntMax && IntMin <= w.minLevel <= IntMax
  }

  /** Reading back a written row gives the wish, a missing approver
      included, provided the approver id is not empty and has no
      surrounding blanks. */
  lemma ParseFormat(w: WishData)
    requires IntMin <= w.costPoints <= IntMax && IntMin <= w.minLevel <= IntMax
    requires w.approvedByUserId.Some? ==> w.approvedByUserId.value != [] && Untrimmed(w.approvedByUserId.value)
    ensures ParseWish(FormatWish(w)) == Some(w)
  {
    ParseIntText(w.costPoints);
    ParseIntText(w.minLevel);
    TypeNameFacts(w.wishType);
    StatusNameFacts(w.status);
    UpperNameCase(TypeName(w.wishType));
    UpperNameCase(StatusName(w.status));
    ApproverRoundTrip(w.approvedByUserId);
  }

  /** An approver id that is blank is lost on the way: the wish reads back
      without an approver. */
  lemma BlankApproverLost(w: WishData)
    requires IntMin <= w.costPoints <= IntMax && IntMin <= w.minLevel <= IntMax
    requires w.approvedByUserId.Some? && TrimsToEmpty(w.approvedByUserId.value)
    ensures ParseWish(FormatWish(w)) == Some(w.(approvedByUserId := None))
  {
    ParseIntText(w.costPoints);
    ParseIntText(w.minLevel);
    TypeNameFacts(w.wishType);
    StatusNameFacts(w.status);
    UpperNameCase(TypeName(w.wishType));
    UpperNameCase(StatusName(w.status));
    ApproverRoundTrip(w.approvedByUserId);
  }

  /** A type or status cell is read whatever its letter case. */
  lemma ParseIgnoresCase(w: WishData)
    requires IntMin <= w.costPoints <= IntMax && IntMin <= w.minLevel <= IntMax
    requires w.approvedByUserId.Some? ==> w.approvedByUserId.value != [] && Untrimmed(w.approvedByUserId.value)
    ensures var row := FormatWish(w);
      ParseWish(row[5 := ToLower(row[5])][6 := ToLower(row[6])]) == Some(w)
  {
    ParseFormat(w);
    TypeNameFacts(w.wishType);
    StatusNameFacts(w.status);
    UpperNameCase(TypeName(w.wishType));
    UpperNameCase(StatusName(w.status));
  }

  /** Every written cell is one the file keeps as it is. */
  lemma FormatStorable(w: WishData)
    requires Storable(w)
    ensures FS.Storable(FormatWish(w))
  {
    var row := FormatWish(w);
    forall i | 0 <= i < 9
      ensures FS.Plain(row[i]) && Untrimmed(row[i])
    {
      if i == 3 {
        IntTextIsToken(w.costPoints);
        FS.TokenStorable(IntText(w.costPoints));
      } else if i == 4 {
        IntTextIsToken(w.minLevel);
        FS.TokenStorable(IntText(w.minLevel));
      } else if i == 5 {
        TypeNameFacts(w.wishType);
        FS.TokenStorable(TypeName(w.wishType));
      } else if i == 6 {
        StatusNameFacts(w.status);
        FS.TokenStorable(StatusName(w.status));
      }
    }
  }

  /** `saveAll` followed by `loadAll` gives back the saved wishes, in
      order. */
  lemma SaveThenLoad(path: string, wishes: seq<WishData>)
    requires forall i :: 0 <= i < |wishes| ==> Storable(wishes[i])
    ensures var rows := RowsOfWishes(wishes);
      FS.RowsOf(path, FS.FileLines(Header, Map(rows, FS.Present)), Header) == Ok(rows)
      && WishesOf(rows) == wishes
  {
    var rows := RowsOfWishes(wishes);
    forall i | 0 <= i < |rows|
      ensures FS.Storable(rows[i])
    {
      FormatStorable(wishes[i]);
    }
    HeaderNotBlank();
    FS.RoundTrip(path, Header, rows);
    forall i | 0 <= i < |wishes|
      ensures ParseWish(FormatWish(wishes[i])) == Some(wishes[i])
    {
      ParseFormat(wishes[i]);
    }
    CollectMapInverse(wishes, FormatWish, ParseWish);
  }

  /** The row loop of `loadAll`: each row that parses is added, the others
      are skipped. */
  method ParseRows(rows: seq<seq<string>>) returns (wishes: seq<WishData>)
    ensures wishes == WishesOf(rows)
  {
    wishes := [];
    var i := 0;
    while i < |rows|
      invariant 0 <= i <= |rows|
      invariant wishes == Collect(rows[..i], ParseWish)
    {
      var wish := ParseWish(rows[i]);
      CollectSnocOf(rows, i, ParseWish, wish);
      if wish.Some? {
        wishes := wishes + [wish.value];
      }
      assert wishes == Collect(rows[..i + 1], ParseWish);
      i := i + 1;
    }
    assert rows[..|rows|] == rows;
  }

  /** The row loop of `saveAll`. */
  method FormatRows(wishes: seq<WishData>) returns (rows: seq<seq<string>>)
    ensures rows == RowsOfWishes(wishes)
  {
    rows := [];
    var i := 0;
    while i < |wishes|
      invariant 0 <= i <= |wishes|
      invariant rows == Map(wishes[..i], FormatWish)
    {
      MapSnoc(wishes, i, FormatWish);
      rows := rows + [FormatWish(wishes[i])];
      i := i + 1;
    }
    assert wishes[..|wishes|] == wishes;
  }

  /** `WishRepository`: the storage for "Wishes.txt". */
  class WishRepository {
    const storage: FS.FileStorage

    constructor (disk: Option<seq<string>>)
      ensures fresh(storage)
      ensures storage.filePath == FS.DataDir + "/" + FileName && storage.file == disk
    {
      storage := new FS.FileStorage(FileName, disk);
    }

    /** `loadAll`: the storage's rows, less those that do not parse; a
        header failure is passed on. */
    method LoadAll() returns (r: Result<seq<WishData>, Failure>)
      modifies storage
      ensures old(storage.file).None? ==> storage.file == Some([Header])
      ensures old(storage.file).Some? ==> storage.file == old(storage.file)
      ensures var rows := FS.RowsOf(storage.filePath, storage.file.value, Header);
        (rows.Err? ==> r == Err(rows.error)) && (rows.Ok? ==> r == Ok(WishesOf(rows.value)))
    {
      var rows := storage.ReadAll(Header);
      if rows.Err? {
        return Err(rows.error);
      }
      var wishes := ParseRows(rows.value);
      return Ok(wishes);
    }

    /** `saveAll`: the file becomes the header and one row per wish. */
    method SaveAll(wishes: seq<WishData>)
      modifies storage
      ensures storage.file == Some(FS.FileLines(Header, Map(RowsOfWishes(wishes), FS.Present)))
    {
      var rows := FormatRows(wishes);
      storage.WriteAll(Header, Map(rows, FS.Present));
    }
  }
}
