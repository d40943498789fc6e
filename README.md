# KidTask and BeePlan in Dafny

This project models the logic of two student projects kept in one repository, and proves what that logic promises.

**KidTask** is a chore-and-reward tracker for children, parents and teachers. A parent or teacher sets a task. The child completes it. An adult approves it, and the child earns its points. With the points a child pays for wishes (rewards) that an adult approves. The repository holds three separate copies, each modelled on its own terms:

- The `kidtask` package, split over `kid_task` (the `Task` and `Wish` entities and the wish service) and `kid_task2` (the `Child` ledger, the level and task services, and the pipe-delimited file storage with its three repositories). Modules `Ledger` and `K2*`.
- `KidTask`: models with validating setters, `TaskManager` and `WishManager` over maps by id, and the comma-separated `DataManager`. Modules `KT*`.
- `Desktop/383`: a single `User` class with a wallet, experience points and a level capped at 5, and list-based task, wish and user services. Modules `Desk*`.

The points ledger that `Child` keeps is the same in the `kidtask` and `KidTask` copies. It is stated once, in module `Ledger`, and both `Child` classes are proved against it.

**BeePlan** builds a weekly course timetable. It comes in two versions:

- A Python version (`bee-plan-v2`): a backtracking engine with three occupancy grids and placement rules, a course record, and a validation report. Modules `Bee2*`.
- A Java version (`BeePlan`): a greedy first-free-cell schedule, rule checks and lecturer availability. Modules `Bee*`.

Shared modules: `Base` holds option and result types and Java integer division, `Text` the JVM and Python string operations, `Seqs` stream-style filters and lookups, `Numbers` the integer, boolean and date text forms, and `Failures` the KidTask exceptions as values.

How the source maps to Dafny:

- Objects whose fields the source updates in place are classes: the `Child` ledgers, the Desktop `User`, the entity setters, the managers and services that hold collections, and the scheduling engine with its grids.
- Each class method is proved against a function over values, which states the rule.
- Validation, parsing, formatting and the rule checks are functions.
- Loops in the source are methods with loop invariants, proved equal to those functions.
- Java exceptions are `Result` or `Outcome` values carrying the source's message. State stays unchanged on failure, except where the source changes it before throwing. There the partial update is modelled as written: `KidTask` `TaskManager.approveTask` sets a task to APPROVED before the rating check can throw.
- The Desktop task service uses a string status ("TODO", "PENDING", "COMPLETED"), but the `Task` class shipped with that copy has only a boolean `completed`. The model follows the service.
- No `Wish` class comes with the Desktop copy, and several enum files are not part of this model: `UserRole` and `TaskType` of both copies, and `WishType` and `WishStatus` of the `kidtask` package. Their values are taken from the code that uses them.
- `engine.py` builds its engine from the course list alone, while the Python UI passes courses and rooms. The model follows `engine.py`.

## Model

| member | source | states |
|---|---|---|
| Ledger.Fresh | kid_task2/src/main/java/kidtask/model/Child.java:20-22 | a new child starts with a balance of 0, level 1 and no rating, which the setters' rules accept |
| Ledger.LevelForPoints | kid_task2/src/main/java/kidtask/model/Child.java:144-146 | the level is at least 1 and, for a balance that is not negative, one more than the number of whole hundreds in it |
| Ledger.Credit | kid_task2/src/main/java/kidtask/model/Child.java:101-107 | it throws exactly for a negative amount; otherwise the balance grows by the amount, the level is recomputed from it, the ratings are untouched and a valid ledger stays valid |
| Ledger.Spend | kid_task2/src/main/java/kidtask/model/Child.java:115-125 | it throws exactly for a negative cost; it answers true exactly when the balance covers the cost; a refusal changes nothing; a payment lowers the balance by the cost and recomputes the level; a valid ledger stays valid |
| Ledger.RecordRating | kid_task2/src/main/java/kidtask/model/Child.java:132-138 | it throws exactly for a rating outside 1 to 5; otherwise the rating is added to the sum and one to the count, and the balance and level are untouched |
| Ledger.AverageRating | kid_task2/src/main/java/kidtask/model/Child.java:92-94 | 0 before the first rating, otherwise the value that multiplied by the count gives the sum |
| Ledger.RecordRatingKeepsRange | kid_task2/src/main/java/kidtask/model/Child.java:132-138 | an accepted rating keeps the sum between one and five times the count |
| Ledger.AverageInRange | kid_task2/src/main/java/kidtask/model/Child.java:92-138 | with ratings recorded only through `recordRating`, the average is 0 with no rating and otherwise lies between 1 and 5 |
| Ledger.LevelMonotone | kid_task2/src/main/java/kidtask/model/Child.java:144-146 | a larger balance never gives a lower level |
| Ledger.CreditThenSpend | kid_task2/src/main/java/kidtask/model/Child.java:101-125 | spending what was just added succeeds and gives back the old balance with the level the balance gives |
| Ledger.RunKeepsValid | kid_task2/src/main/java/kidtask/model/Child.java:47-125 | whatever calls to `addPoints`, `spendPoints` and `recordRating` are made, the balance never goes negative and the level never drops below 1 |
| Ledger.RunKeepsRatingsInRange | kid_task2/src/main/java/kidtask/model/Child.java:132-138 | whatever calls are made, ratings recorded only through `recordRating` keep the sum between one and five times the count |
| K2Child.RoleNamed | kid_task2/src/main/java/kidtask/persistence/UserRepository.java:88 | `Role.valueOf` finds the role whose name is given and throws exactly when no role has that name |
| K2Child.RoleNameFacts | kid_task2/src/main/java/kidtask/persistence/UserRepository.java:88-111 | each role's `name()` is an upper-case token that `valueOf` maps back to that role |
| K2Child.ChildRecord | kid_task2/src/main/java/kidtask/model/Child.java:35-41 | the full constructor throws exactly for a negative balance or a level below 1, with the balance checked first; otherwise it holds the values given and is valid |
| K2Child.Child.New | kid_task2/src/main/java/kidtask/model/Child.java:20-22 | a fresh id, the name, a balance of 0, level 1 and no rating |
| K2Child.Child.Create | kid_task2/src/main/java/kidtask/model/Child.java:35-41 | the new object holds exactly what `ChildRecord` describes, or the call fails with its message |
| K2Child.Child.SetPoints | kid_task2/src/main/java/kidtask/model/Child.java:47-52 | a negative balance is refused and changes nothing; otherwise only the balance changes |
| K2Child.Child.SetLevel | kid_task2/src/main/java/kidtask/model/Child.java:58-63 | a level below 1 is refused and changes nothing; otherwise only the level changes |
| K2Child.Child.SetRatingSum | kid_task2/src/main/java/kidtask/model/Child.java:69-74 | a negative sum is refused and changes nothing; otherwise only the sum changes |
| K2Child.Child.SetRatingCount | kid_task2/src/main/java/kidtask/model/Child.java:80-85 | a negative count is refused and changes nothing; otherwise only the count changes |
| K2Child.Child.AverageRating | kid_task2/src/main/java/kidtask/model/Child.java:92-94 | 0 with no rating, otherwise the sum divided by the count |
| K2Child.Child.AddPoints | kid_task2/src/main/java/kidtask/model/Child.java:101-107 | the ledger becomes `Credit` of the old one, or the call fails with its message and nothing changes |
| K2Child.Child.SpendPoints | kid_task2/src/main/java/kidtask/model/Child.java:115-125 | the answer and the new ledger are those of `Spend`, or the call fails with its message and nothing changes |
| K2Child.Child.RecordRating | kid_task2/src/main/java/kidtask/model/Child.java:132-138 | the ledger becomes `RecordRating` of the old one, or the call fails with its message and nothing changes |
| K2Child.Child.UpdateLevelFromPoints | kid_task2/src/main/java/kidtask/model/Child.java:144-146 | the level becomes the one the balance gives, whatever it was before |
| K2Task.StatusNamed | kid_task2/src/main/java/kidtask/persistence/TaskRepository.java:90 | `TaskStatus.valueOf` finds the status whose name is given and throws exactly when no status has that name |
| K2Task.TypeNamed | kid_task2/src/main/java/kidtask/persistence/TaskRepository.java:91 | `TaskType.valueOf` finds the type whose name is given and throws exactly when no type has that name |
| K2Task.StatusNameFacts | kid_task2/src/main/java/kidtask/persistence/TaskRepository.java:90-113 | each status's name is an upper-case token that `valueOf` maps back to that status |
| K2Task.TypeNameFacts | kid_task2/src/main/java/kidtask/persistence/TaskRepository.java:91-113 | each type's name is an upper-case token that `valueOf` maps back to that type |
| K2Task.Described | kid_task/src/main/java/kidtask/model/Task.java:52 | a null description becomes the empty string, any other is kept |
| K2Task.TaskRecord | kid_task/src/main/java/kidtask/model/Task.java:48-59 | the full constructor fails exactly when a required field is null, with the message of the first null field in declaration order; otherwise every field is stored as given, the description through the null rule |
| K2Task.NewTask | kid_task/src/main/java/kidtask/model/Task.java:31-33 | the short constructor is the full one with the fresh id, status NEW and no rating |
| K2Task.Task.FromData | kid_task/src/main/java/kidtask/model/Task.java:48-59 | the object holds exactly the fields given |
| K2Task.Task.Create | kid_task/src/main/java/kidtask/model/Task.java:48-59 | a new object holding what `TaskRecord` describes, or its failure |
| K2Task.Task.CreateNew | kid_task/src/main/java/kidtask/model/Task.java:31-33 | a new object holding what `NewTask` describes, or its failure |
| K2Task.Task.SetId | kid_task/src/main/java/kidtask/model/Task.java:65-67 | null is refused with the id message and changes nothing; otherwise only the id changes |
| K2Task.Task.SetTitle | kid_task/src/main/java/kidtask/model/Task.java:73-75 | null is refused with the title message and changes nothing; otherwise only the title changes |
| K2Task.Task.SetDescription | kid_task/src/main/java/kidtask/model/Task.java:81-83 | only the description changes, a null one becoming empty |
| K2Task.Task.SetDueDate | kid_task/src/main/java/kidtask/model/Task.java:89-91 | null is refused and changes nothing; otherwise only the due date changes |
| K2Task.Task.SetPoints | kid_task/src/main/java/kidtask/model/Task.java:97-99 | only the points change, to any value |
| K2Task.Task.SetStatus | kid_task/src/main/java/kidtask/model/Task.java:105-107 | null is refused and changes nothing; otherwise only the status changes |
| K2Task.Task.SetType | kid_task/src/main/java/kidtask/model/Task.java:113-115 | null is refused and changes nothing; otherwise only the type changes |
| K2Task.Task.SetChildId | kid_task/src/main/java/kidtask/model/Task.java:121-123 | null is refused and changes nothing; otherwise only the child id changes |
| K2Task.Task.SetRating | kid_task/src/main/java/kidtask/model/Task.java:129-131 | only the rating changes, to any value or none |
| K2Task.EqualsById | kid_task/src/main/java/kidtask/model/Task.java:133-139 | `equals` is reflexive, symmetric and transitive, holds exactly for equal ids and never for null |
| K2Wish.TypeNamed | kid_task2/src/main/java/kidtask/persistence/WishRepository.java:89 | `WishType.valueOf` finds the type whose name is given and throws exactly when no type has that name |
| K2Wish.StatusNamed | kid_task2/src/main/java/kidtask/persistence/WishRepository.java:90 | `WishStatus.valueOf` finds the status whose name is given and throws exactly when no status has that name |
| K2Wish.TypeNameFacts | kid_task2/src/main/java/kidtask/persistence/WishRepository.java:89-112 | each type's name is an upper-case token that `valueOf` maps back to that type |
| K2Wish.StatusNameFacts | kid_task2/src/main/java/kidtask/persistence/WishRepository.java:90-112 | each status's name is an upper-case token that `valueOf` maps back to that status |
| K2Wish.WishRecord | kid_task/src/main/java/kidtask/model/Wish.java:47-58 | the full constructor fails exactly when a required field is null, with the message of the first null field in declaration order; otherwise every field is stored as given, a null description becoming empty |
| K2Wish.NewWish | kid_task/src/main/java/kidtask/model/Wish.java:30-32 | the short constructor is the full one with the fresh id, status PENDING and no approver |
| K2Wish.Wish.FromData | kid_task/src/main/java/kidtask/model/Wish.java:47-58 | the object holds exactly the fields given |
| K2Wish.Wish.Create | kid_task/src/main/java/kidtask/model/Wish.java:47-58 | a new object holding what `WishRecord` describes, or its failure |
| K2Wish.Wish.CreateNew | kid_task/src/main/java/kidtask/model/Wish.java:30-32 | a new object holding what `NewWish` describes, or its failure |
| K2Wish.Wish.SetId | kid_task/src/main/java/kidtask/model/Wish.java:64-66 | null is refused and changes nothing; otherwise only the id changes |
| K2Wish.Wish.SetTitle | kid_task/src/main/java/kidtask/model/Wish.java:72-74 | null is refused and changes nothing; otherwise only the title changes |
| K2Wish.Wish.SetDescription | kid_task/src/main/java/kidtask/model/Wish.java:80-82 | only the description changes, a null one becoming empty |
| K2Wish.Wish.SetCostPoints | kid_task/src/main/java/kidtask/model/Wish.java:88-90 | only the cost changes, to any value |
| K2Wish.Wish.SetMinLevel | kid_task/src/main/java/kidtask/model/Wish.java:96-98 | only the minimum level changes, to any value |
| K2Wish.Wish.SetType | kid_task/src/main/java/kidtask/model/Wish.java:104-106 | null is refused and changes nothing; otherwise only the type changes |
| K2Wish.Wish.SetStatus | kid_task/src/main/java/kidtask/model/Wish.java:112-114 | null is refused and changes nothing; otherwise only the status changes |
| K2Wish.Wish.SetRequestedByChildId | kid_task/src/main/java/kidtask/model/Wish.java:120-122 | null is refused and changes nothing; otherwise only the requesting child changes |
| K2Wish.Wish.SetApprovedByUserId | kid_task/src/main/java/kidtask/model/Wish.java:128-130 | only the approver changes, to any id or none |
| K2Wish.EqualsById | kid_task/src/main/java/kidtask/model/Wish.java:132-138 | `equals` is reflexive, symmetric and transitive, holds exactly for equal ids and never for null |
| K2FileStorage.Escape | kid_task2/src/main/java/kidtask/persistence/FileStorage.java:162-172 | a null field is written empty; a field without delimiter, backslash or line break is written unchanged; no written field holds a line break |
| K2FileStorage.Unescape | kid_task2/src/main/java/kidtask/persistence/FileStorage.java:139-146 | a piece already trimmed and without backslash is read back unchanged |
| K2FileStorage.LineOf | kid_task2/src/main/java/kidtask/persistence/FileStorage.java:159-176 | the written line holds no line break, so each row stays on one line of the file |
| K2FileStorage.FieldsOf | kid_task2/src/main/java/kidtask/persistence/FileStorage.java:135-150 | every line gives at least one field, since the split keeps empty pieces |
| K2FileStorage.FieldsMatchIff | kid_task2/src/main/java/kidtask/persistence/FileStorage.java:115-119 | two header fields match exactly when they are equal once trimmed and lower-cased |
| K2FileStorage.FirstMismatch | kid_task2/src/main/java/kidtask/persistence/FileStorage.java:116-124 | the first position from which the header fields differ, every earlier one matching; none when they all match |
| K2FileStorage.HeaderCheckPasses | kid_task2/src/main/java/kidtask/persistence/FileStorage.java:101-125 | a header is accepted exactly when it is not blank, has as many fields as the expected one and agrees with it field by field up to case and surrounding whitespace |
| K2FileStorage.HeaderMatchesItself | kid_task2/src/main/java/kidtask/persistence/FileStorage.java:101-125 | any header that is not blank is accepted as its own expected header |
| K2FileStorage.DataRows | kid_task2/src/main/java/kidtask/persistence/FileStorage.java:52-60 | at most one row per line of the file |
| K2FileStorage.FileLines | kid_task2/src/main/java/kidtask/persistence/FileStorage.java:78-88 | the file is the header followed by one formatted line per row, in order |
| K2FileStorage.TokenStorable | kid_task2/src/main/java/kidtask/persistence/FileStorage.java:159-176 | a number or date as the JDK prints it is a non-empty field that writing and reading leave as it is |
| K2FileStorage.Present | kid_task2/src/main/java/kidtask/persistence/FileStorage.java:162-164 | each field of a row is handed over present, none null |
| K2FileStorage.LineRoundTrip | kid_task2/src/main/java/kidtask/persistence/FileStorage.java:135-176 | a row of plain, trimmed fields is written as a non-blank, trimmed line that parses back to the same fields |
| K2FileStorage.RoundTrip | kid_task2/src/main/java/kidtask/persistence/FileStorage.java:38-92 | rows of plain, trimmed fields written under a header that is not blank are read back unchanged and in order |
| K2FileStorage.DataRowsOfLines | kid_task2/src/main/java/kidtask/persistence/FileStorage.java:52-60 | the lines written for such rows read back as exactly those rows |
| K2FileStorage.DelimiterInFieldSplits | kid_task2/src/main/java/kidtask/persistence/FileStorage.java:135-176 | a field holding a delimiter does not survive: written as `x\\|y`, it is read back as the two fields `x\\` and `y`, because reading cuts at every delimiter |
| K2FileStorage.EscapeOfDelimiter | kid_task2/src/main/java/kidtask/persistence/FileStorage.java:167-170 | a delimiter between plain text is written with a backslash before it |
| K2FileStorage.UnescapeTrailingBackslash | kid_task2/src/main/java/kidtask/persistence/FileStorage.java:141-145 | a trailing backslash left by such a cut is not undone when read |
| K2FileStorage.ReadLines | kid_task2/src/main/java/kidtask/persistence/FileStorage.java:42-62 | an empty file gives no rows; a bad header gives its failure; otherwise the rows of every non-blank line, trimmed, in order |
| K2FileStorage.ValidateHeader | kid_task2/src/main/java/kidtask/persistence/FileStorage.java:101-125 | the loop reports the blank header, the field count, or the first mismatching field with its position from 1, and passes otherwise, exactly as `HeaderCheck` |
| K2FileStorage.ParseLine | kid_task2/src/main/java/kidtask/persistence/FileStorage.java:135-150 | the loop gives `FieldsOf` the line |
| K2FileStorage.FormatLine | kid_task2/src/main/java/kidtask/persistence/FileStorage.java:159-176 | the loop gives `LineOf` the fields |
| K2FileStorage.FileStorage.constructor | kid_task2/src/main/java/kidtask/persistence/FileStorage.java:26-29 | the path is the file name under the data directory |
| K2FileStorage.FileStorage.ReadAll | kid_task2/src/main/java/kidtask/persistence/FileStorage.java:38-66 | a missing file is first created holding only the header, an existing one is untouched, and the result is `RowsOf` the file |
| K2FileStorage.FileStorage.WriteAll | kid_task2/src/main/java/kidtask/persistence/FileStorage.java:75-92 | the file becomes the header followed by one formatted line per row |
| K2TaskRepository.HeaderNotBlank | kid_task2/src/main/java/kidtask/persistence/TaskRepository.java:17 | the tasks header is not blank, so the storage accepts it |
| K2TaskRepository.RatingOf | kid_task2/src/main/java/kidtask/persistence/TaskRepository.java:124-133 | a blank cell is no rating; any other is the trimmed text read as a number, none when it is not one |
| K2TaskRepository.RatingRoundTrip | kid_task2/src/main/java/kidtask/persistence/TaskRepository.java:114-133 | a rating a `double` holds, written by `formatTask`, reads back as itself, and a missing one as missing |
| Numbers.WholeTextFaithful | kid_task2/src/main/java/kidtask/persistence/TaskRepository.java:114-133 | the assumption the round trips make of the JDK conversions can be met: a conversion writing dates as day numbers and numbers as whole numbers meets it, and holds every rating from 1 to 5 |
| K2TaskRepository.ParseTask | kid_task2/src/main/java/kidtask/persistence/TaskRepository.java:80-96 | a row fails exactly when it has fewer than nine cells or its date, points, status or type cell cannot be read, the last two after upper-casing; otherwise each field comes from its cell in header order |
| K2TaskRepository.FormatTask | kid_task2/src/main/java/kidtask/persistence/TaskRepository.java:104-116 | nine cells, the last empty exactly for a task without rating |
| K2TaskRepository.ParseFormat | kid_task2/src/main/java/kidtask/persistence/TaskRepository.java:80-116 | a written row parses back to the same task, when its points fit an `int` and its rating is a `double` |
| K2TaskRepository.ParseIgnoresCase | kid_task2/src/main/java/kidtask/persistence/TaskRepository.java:90-91 | a status or type cell written in lower case still reads back as the same task |
| K2TaskRepository.FormatStorable | kid_task2/src/main/java/kidtask/persistence/TaskRepository.java:104-116 | for a task with plain, trimmed text fields and a rating a `double` holds, every written cell is kept by the file as it is |
| K2TaskRepository.SaveThenLoad | kid_task2/src/main/java/kidtask/persistence/TaskRepository.java:31-63 | `saveAll` then `loadAll` gives back the saved tasks, in order, for tasks whose text the file keeps, whose points fit an `int` and whose ratings are `double`s |
| K2TaskRepository.ParseRows | kid_task2/src/main/java/kidtask/persistence/TaskRepository.java:35-43 | the loop keeps every row that parses, in file order, and skips the others |
| K2TaskRepository.FormatRows | kid_task2/src/main/java/kidtask/persistence/TaskRepository.java:57-60 | the loop formats every task, in order |
| K2TaskRepository.TaskRepository.constructor | kid_task2/src/main/java/kidtask/persistence/TaskRepository.java:21-23 | the storage is the file "Tasks.txt" under the data directory |
| K2TaskRepository.TaskRepository.LoadAll | kid_task2/src/main/java/kidtask/persistence/TaskRepository.java:31-46 | a header failure is passed on; otherwise the tasks of the rows that parse, in order |
| K2TaskRepository.TaskRepository.SaveAll | kid_task2/src/main/java/kidtask/persistence/TaskRepository.java:54-63 | the file becomes the header and one formatted row per task |
| K2WishRepository.HeaderNotBlank | kid_task2/src/main/java/kidtask/persistence/WishRepository.java:16 | the wishes header is not blank, so the storage accepts it |
| K2WishRepository.ApproverOf | kid_task2/src/main/java/kidtask/persistence/WishRepository.java:123-128 | a blank cell is no approver; any other is the trimmed text |
| K2WishRepository.ApproverRoundTrip | kid_task2/src/main/java/kidtask/persistence/WishRepository.java:113-128 | no approver reads back as none, a blank approver id is lost, and a trimmed non-empty one reads back as itself |
| K2WishRepository.ParseWish | kid_task2/src/main/java/kidtask/persistence/WishRepository.java:79-95 | a row fails exactly when it has fewer than nine cells or its cost, level, type or status cell cannot be read; otherwise each field comes from its cell in header order |
| K2WishRepository.FormatWish | kid_task2/src/main/java/kidtask/persistence/WishRepository.java:103-115 | nine cells, the last empty exactly when there is no approver or it is empty |
| K2WishRepository.ParseFormat | kid_task2/src/main/java/kidtask/persistence/WishRepository.java:79-115 | a written row parses back to the same wish |
| K2WishRepository.BlankApproverLost | kid_task2/src/main/java/kidtask/persistence/WishRepository.java:113-128 | a wish whose approver id is blank reads back with no approver |
| K2WishRepository.ParseIgnoresCase | kid_task2/src/main/java/kidtask/persistence/WishRepository.java:89-90 | a type or status cell written in lower case still reads back as the same wish |
| K2WishRepository.FormatStorable | kid_task2/src/main/java/kidtask/persistence/WishRepository.java:103-115 | for a wish with plain, trimmed text fields, every written cell is kept by the file as it is |
| K2WishRepository.SaveThenLoad | kid_task2/src/main/java/kidtask/persistence/WishRepository.java:30-62 | `saveAll` then `loadAll` gives back the saved wishes, in order |
| K2WishRepository.ParseRows | kid_task2/src/main/java/kidtask/persistence/WishRepository.java:34-42 | the loop keeps every row that parses, in file order, and skips the others |
| K2WishRepository.FormatRows | kid_task2/src/main/java/kidtask/persistence/WishRepository.java:56-59 | the loop formats every wish, in order |
| K2WishRepository.WishRepository.constructor | kid_task2/src/main/java/kidtask/persistence/WishRepository.java:20-22 | the storage is the file "Wishes.txt" under the data directory |
| K2WishRepository.WishRepository.LoadAll | kid_task2/src/main/java/kidtask/persistence/WishRepository.java:30-45 | a header failure is passed on; otherwise the wishes of the rows that parse, in order |
| K2WishRepository.WishRepository.SaveAll | kid_task2/src/main/java/kidtask/persistence/WishRepository.java:53-62 | the file becomes the header and one formatted row per wish |
| K2UserRepository.HeaderNotBlank | kid_task2/src/main/java/kidtask/persistence/UserRepository.java:16 | the users header is not blank, so the storage accepts it |
| K2UserRepository.ParseChild | kid_task2/src/main/java/kidtask/persistence/UserRepository.java:90-95 | a child row is read exactly when its four ledger cells are numbers and the constructor accepts them; the ledger is then those values |
| K2UserRepository.ParseUser | kid_task2/src/main/java/kidtask/persistence/UserRepository.java:81-99 | a row fails when it has fewer than seven cells or an unknown role; a CHILD row is read as a child, any other role as a plain user with that id, name and role |
| K2UserRepository.FormatUser | kid_task2/src/main/java/kidtask/persistence/UserRepository.java:107-125 | seven cells, the role's name third, and "0", "0", "0.0", "0" for a user that is not a child |
| K2UserRepository.LoadedChildrenValid | kid_task2/src/main/java/kidtask/persistence/UserRepository.java:34-42 | every child `loadAll` returns has a balance that is not negative and a level of at least 1 |
| K2UserRepository.ParseFormatChild | kid_task2/src/main/java/kidtask/persistence/UserRepository.java:81-125 | a written child row parses back to the same child, for a valid ledger with `int` counters and a rating sum a `double` holds |
| K2UserRepository.ParseFormat | kid_task2/src/main/java/kidtask/persistence/UserRepository.java:81-125 | a written row parses back to the same user, except a plain user carrying the CHILD role |
| K2UserRepository.PlainUserWithChildRoleLost | kid_task2/src/main/java/kidtask/persistence/UserRepository.java:90-122 | a plain user with role CHILD is written with level "0", which the child constructor refuses, so the row is skipped when read |
| K2UserRepository.FormatStorable | kid_task2/src/main/java/kidtask/persistence/UserRepository.java:107-125 | for a user with plain, trimmed id and name, every written cell is kept by the file as it is |
| K2UserRepository.SaveThenLoad | kid_task2/src/main/java/kidtask/persistence/UserRepository.java:30-62 | `saveAll` then `loadAll` gives back the saved users, in order, for users whose text the file keeps, children with valid ledgers, `int` counters and `double` rating sums |
| K2UserRepository.ParseRows | kid_task2/src/main/java/kidtask/persistence/UserRepository.java:34-42 | the loop keeps every row that parses, in file order, and skips the others |
| K2UserRepository.FormatRows | kid_task2/src/main/java/kidtask/persistence/UserRepository.java:56-59 | the loop formats every user, in order |
| K2UserRepository.UserRepository.constructor | kid_task2/src/main/java/kidtask/persistence/UserRepository.java:20-22 | the storage is the file "Users.txt" under the data directory |
| K2UserRepository.UserRepository.LoadAll | kid_task2/src/main/java/kidtask/persistence/UserRepository.java:30-45 | a header failure is passed on; otherwise the users of the rows that parse, in order |
| K2UserRepository.UserRepository.SaveAll | kid_task2/src/main/java/kidtask/persistence/UserRepository.java:53-62 | the file becomes the header and one formatted row per user |
| K2Lookup.FindAccount | kid_task2/src/main/java/kidtask/service/TaskService.java:239-244 | the first user with that id, every earlier one having another id; none exactly when no user has it |
| K2Lookup.CheckChildExists | kid_task2/src/main/java/kidtask/service/TaskService.java:216-228 | a null or blank id, an unknown id and a user that is not a child are refused with their own messages, in that order; it passes exactly when the first user with that id has role CHILD |
| K2Lookup.CheckParentExists | kid_task/src/main/java/kidtask/service/WishService.java:189-200 | the same for PARENT: it passes exactly when the first user with that id is a parent, so a teacher does not qualify |
| K2Lookup.FindAfterLedgerUpdate | kid_task2/src/main/java/kidtask/service/TaskService.java:239-244 | changing a child's ledger leaves every lookup by id where it was |
| K2LevelService.LevelFromRating | kid_task2/src/main/java/kidtask/service/LevelService.java:87-93 | at least 1; for an average of at least 1 its whole part; 1 below 2; at most 5 for an average of at most 5 |
| K2LevelService.LevelFromRatingMonotone | kid_task2/src/main/java/kidtask/service/LevelService.java:87-93 | a higher average never gives a lower level |
| K2LevelService.LevelOfValidRatings | kid_task2/src/main/java/kidtask/service/LevelService.java:62-64 | with ratings recorded only through `recordRating`, the level lies between 1 and 5 |
| K2LevelService.UpdateLevel | kid_task2/src/main/java/kidtask/service/LevelService.java:44-73 | a null or blank id, an unknown id and a user that is not a child are refused with their own messages; otherwise the level from the child's average is returned and stored on that child alone |
| K2LevelService.UpdateLevelStores | kid_task2/src/main/java/kidtask/service/LevelService.java:62-70 | the level returned is the one stored on the child, whose points and ratings are unchanged |
| K2LevelService.UpdateLevelIdempotent | kid_task2/src/main/java/kidtask/service/LevelService.java:44-73 | updating a second time returns the same level and changes nothing more |
| K2LevelService.LevelService.constructor | kid_task2/src/main/java/kidtask/service/LevelService.java:17-19 | the users as the repository holds them |
| K2LevelService.LevelService.UpdateLevelFromRatings | kid_task2/src/main/java/kidtask/service/LevelService.java:44-73 | the answer and the new user list are those of `UpdateLevel`; a failure changes nothing |
| K2TaskService.FindTask | kid_task2/src/main/java/kidtask/service/TaskService.java:232-237 | the first task with that id, every earlier one having another id; none exactly when no task has it |
| K2TaskService.CheckTitle | kid_task2/src/main/java/kidtask/service/TaskService.java:163-170 | a title passes exactly when it is not null, not blank and at most 200 characters; a null or blank one is reported before a long one |
| K2TaskService.CheckDescription | kid_task2/src/main/java/kidtask/service/TaskService.java:172-176 | a description passes exactly when it is null or at most 1000 characters |
| K2TaskService.CheckDueDate | kid_task2/src/main/java/kidtask/service/TaskService.java:178-183 | any date passes, past ones included; only null is refused |
| K2TaskService.CheckPoints | kid_task2/src/main/java/kidtask/service/TaskService.java:185-192 | points pass exactly from 1 to 1000, with one message for zero or less and another for over 1000 |
| K2TaskService.CheckRating | kid_task2/src/main/java/kidtask/service/TaskService.java:194-198 | a rating passes exactly from 1.0 to 5.0 inclusive |
| K2TaskService.CheckApproverRole | kid_task2/src/main/java/kidtask/service/TaskService.java:200-204 | exactly a parent or a teacher passes; a child or null is refused |
| K2TaskService.CheckTaskExists | kid_task2/src/main/java/kidtask/service/TaskService.java:206-214 | it passes exactly when the id is not null or blank and some task has it; otherwise the blank-id or not-found message |
| K2TaskService.CheckNewTask | kid_task2/src/main/java/kidtask/service/TaskService.java:44-50 | it passes exactly when all five checks pass, and otherwise reports the first failing check in the order title, description, due date, points, child |
| K2TaskService.NewTaskFor | kid_task2/src/main/java/kidtask/service/TaskService.java:44-61 | a failed check or a null type gives its exception; otherwise a NEW task with the fresh id, no rating and the values given, whose points, title and description are within the checked bounds and whose child exists |
| K2TaskService.Complete | kid_task2/src/main/java/kidtask/service/TaskService.java:91-114 | the task and child checks come first; it succeeds exactly when the task belongs to that child and is NEW, and then only that task changes, to PENDING_APPROVAL |
| K2TaskService.Approval | kid_task2/src/main/java/kidtask/service/TaskService.java:126-159 | rating, role and task checks come first, in that order; on success the task was PENDING_APPROVAL and becomes APPROVED with the rating, and the first user with the task's child id is a child that is credited the points and records the rating |
| K2TaskService.ApprovalPays | kid_task2/src/main/java/kidtask/service/TaskService.java:142-154 | on approval the child's balance grows by exactly the task's points, one rating is added to the sum and the count, the level follows the balance, and no other user changes |
| K2TaskService.ApproveTwiceFails | kid_task2/src/main/java/kidtask/service/TaskService.java:137-139 | approving a task a second time fails, whatever rating and role, so a task is paid for once |
| K2TaskService.ApproveNeedsCompletion | kid_task2/src/main/java/kidtask/service/TaskService.java:137-139 | a task that was not completed first cannot be approved |
| K2TaskService.CompleteThenApprove | kid_task2/src/main/java/kidtask/service/TaskService.java:91-159 | a task its child completed can then be approved with a valid rating and role, when that child is a `Child` and the points are not negative |
| K2TaskService.CompleteTwiceFails | kid_task2/src/main/java/kidtask/service/TaskService.java:105-107 | completing the same task twice fails the second time |
| K2TaskService.TaskService.constructor | kid_task2/src/main/java/kidtask/service/TaskService.java:25-28 | the tasks and users as the repositories hold them |
| K2TaskService.TaskService.AddTask | kid_task2/src/main/java/kidtask/service/TaskService.java:44-61 | the result is `NewTaskFor`; a new task is appended to the list, and a failure leaves it as it was |
| K2TaskService.TaskService.ListTasks | kid_task2/src/main/java/kidtask/service/TaskService.java:70-80 | all tasks for a null type; otherwise every task of that type and only those |
| Seqs.FilterCount | kid_task2/src/main/java/kidtask/service/TaskService.java:77-79 | the stream filter keeps every copy of an element that passes and no copy of one that does not |
| Seqs.FilterConcat | kid_task2/src/main/java/kidtask/service/TaskService.java:77-79 | filtering distributes over concatenation, so the kept elements stay in list order |
| K2TaskService.TaskService.CompleteTask | kid_task2/src/main/java/kidtask/service/TaskService.java:91-114 | the outcome and new task list are those of `Complete`; a failure changes nothing |
| K2TaskService.TaskService.ApproveAndRate | kid_task2/src/main/java/kidtask/service/TaskService.java:126-159 | the outcome and the new task and user lists are those of `Approval`; a failure changes nothing |
| K2WishService.FindWish | kid_task/src/main/java/kidtask/service/WishService.java:215-220 | the first wish with that id, every earlier one having another id; none exactly when no wish has it |
| K2WishService.CheckTitle | kid_task/src/main/java/kidtask/service/WishService.java:142-149 | a title passes exactly when it is not null, not blank and at most 200 characters; a null or blank one is reported before a long one |
| K2WishService.CheckDescription | kid_task/src/main/java/kidtask/service/WishService.java:151-155 | a description passes exactly when it is null or at most 1000 characters |
| K2WishService.CheckCost | kid_task/src/main/java/kidtask/service/WishService.java:157-164 | a cost passes exactly from 1 to 10000, with one message for zero or less and another for over 10000 |
| K2WishService.CheckMinLevel | kid_task/src/main/java/kidtask/service/WishService.java:166-173 | a minimum level passes exactly from 1 to 100, with one message below and another above |
| K2WishService.CheckWishExists | kid_task/src/main/java/kidtask/service/WishService.java:203-211 | it passes exactly when the id is not null or blank and some wish has it; otherwise the blank-id or not-found message |
| K2WishService.CheckNewWish | kid_task/src/main/java/kidtask/service/WishService.java:43-49 | it passes exactly when all five checks pass, and otherwise reports the first failing one in the order title, description, cost, level, child |
| K2WishService.NewWishFor | kid_task/src/main/java/kidtask/service/WishService.java:43-60 | a failed check or a null type gives its exception; otherwise a PENDING wish with the fresh id, no approver and the values given, within the checked bounds and requested by an existing child |
| K2WishService.WishApproval | kid_task/src/main/java/kidtask/service/WishService.java:93-138 | the wish and parent checks come first; on success the wish was PENDING and becomes APPROVED with its approver, and the first user with the requesting child's id is a child whose level reaches the wish's and whose balance covers the cost, which is spent |
| K2WishService.ApprovalDebits | kid_task/src/main/java/kidtask/service/WishService.java:126-133 | on approval the child's balance falls by exactly the cost, the level follows the new balance, the ratings stay, and no other user changes |
| K2WishService.ShortfallRefused | kid_task/src/main/java/kidtask/service/WishService.java:115-124 | a child below the wish's level or short of its cost is refused |
| K2WishService.TeacherRefused | kid_task/src/main/java/kidtask/service/WishService.java:189-201 | a teacher cannot approve a wish |
| K2WishService.ApproveWishTwiceFails | kid_task/src/main/java/kidtask/service/WishService.java:103-105 | approving a wish a second time fails, whoever approves, so a wish is paid for once |
| K2WishService.WishService.constructor | kid_task/src/main/java/kidtask/service/WishService.java:24-27 | the wishes and users as the repositories hold them |
| K2WishService.WishService.AddWish | kid_task/src/main/java/kidtask/service/WishService.java:43-60 | the result is `NewWishFor`; a new wish is appended to the list, and a failure leaves it as it was |
| K2WishService.WishService.ListVisibleWishes | kid_task/src/main/java/kidtask/service/WishService.java:71-82 | a level below 1 is refused; otherwise every wish whose minimum level the child has reached, and only those |
| K2WishService.WishService.ApproveWish | kid_task/src/main/java/kidtask/service/WishService.java:93-138 | the outcome and the new wish and user lists are those of `WishApproval`; a failure changes nothing |
| KTUser.RoleNamed | KidTask/src/main/java/managers/DataManager.java:140 | `UserRole.valueOf` gives the role whose name is exactly the text, and fails exactly when no role has that name |
| KTUser.CheckName | KidTask/src/main/java/models/User.java:31-36 | a name passes exactly when it is present and not blank; otherwise the failure is "Name is required" |
| KTUser.User.Create | KidTask/src/main/java/models/User.java:17-21 | a missing or blank name fails with the name check's error; otherwise a new valid user holds the given id (the generated one when none is given), the name and the role |
| KTUser.User.CreateParent | KidTask/src/main/java/models/Parent.java:6-12 | a parent is created exactly when the name passes the check, with role PARENT, the given or generated id and the name |
| KTUser.User.CreateTeacher | KidTask/src/main/java/models/Teacher.java:6-12 | a teacher is created exactly when the name passes the check, with role TEACHER, the given or generated id and the name |
| KTUser.User.SetName | KidTask/src/main/java/models/User.java:31-36 | the result is the name check; a passing name replaces the old one, a refused one leaves it, and the name is never left blank |
| KTChild.CheckChild | KidTask/src/main/java/models/Child.java:17-23 | a child can be built exactly when the name passes, the points are not negative and the level is at least 1, and the first failing check gives the error |
| KTChild.Child.Create | KidTask/src/main/java/models/Child.java:17-23 | a failing check is reported with its error; otherwise a new valid child holds the given or generated id, the name and exactly the given ledger |
| KTChild.Child.CreateNew | KidTask/src/main/java/models/Child.java:13-15 | a new child is refused exactly when the name is, and otherwise has the generated id, no points, level 1 and no ratings |
| KTChild.Child.SetName | KidTask/src/main/java/models/User.java:31-36 | the inherited name setter: a passing name replaces the old one, a refused one changes nothing, and validity is kept |
| KTChild.Child.SetPoints | KidTask/src/main/java/models/Child.java:29-34 | it fails exactly for a negative balance, with "Points cannot be negative" and no change; otherwise the balance becomes the value; validity is kept |
| KTChild.Child.SetLevel | KidTask/src/main/java/models/Child.java:40-45 | it fails exactly for a level below 1, with "Level must be at least 1" and no change; otherwise the level becomes the value; validity is kept |
| KTChild.Child.AverageRating | KidTask/src/main/java/models/Child.java:47-49 | with no ratings the average is 0; otherwise the average times the count is the sum of the ratings |
| KTChild.Child.RecordRating | KidTask/src/main/java/models/Child.java:59-65 | a rating outside 1 to 5 fails with "Rating must be between 1 and 5" and changes nothing; otherwise the ledger becomes the rated ledger; validity is kept |
| KTChild.Child.AddPoints | KidTask/src/main/java/models/Child.java:67-73 | a negative amount fails with "Cannot add negative points" and changes nothing; otherwise the ledger becomes the credited ledger, with the level recomputed from the new balance; validity is kept |
| KTChild.Child.SpendPoints | KidTask/src/main/java/models/Child.java:75-90 | a negative cost fails with "Cost cannot be negative"; a short balance answers false and changes nothing; otherwise it answers true and the ledger becomes the debited ledger with the level recomputed; validity is kept |
| KTChild.EqualsById | KidTask/src/main/java/models/Child.java:92-97 | `equals` is reflexive, symmetric and transitive, holds exactly for the same id, and never holds for null |
| KTTask.StatusNamed | KidTask/src/main/java/managers/DataManager.java:44 | `TaskStatus.valueOf` gives the status whose name is exactly the text, and fails exactly when no status has that name |
| KTTask.TypeNamed | KidTask/src/main/java/managers/DataManager.java:45 | `TaskType.valueOf` gives the type whose name is exactly the text, and fails exactly when no type has that name |
| KTTask.StatusNameFacts | KidTask/src/main/java/enums/TaskStatus.java:6-10 | every status name is a single token that `valueOf` maps back to the same status |
| KTTask.TypeNameFacts | KidTask/src/main/java/managers/DataManager.java:45-70 | every type name is a single token that `valueOf` maps back to the same type |
| KTTask.CheckTitle | KidTask/src/main/java/models/Task.java:46-51 | a title passes exactly when it is present and not blank; otherwise the failure is "Task title is required" |
| KTTask.CheckPoints | KidTask/src/main/java/models/Task.java:73-78 | points pass exactly when they are positive; otherwise the failure is "Points must be positive" |
| KTTask.CheckRating | KidTask/src/main/java/models/Task.java:108-113 | a rating passes exactly when it is absent or between 1 and 5; otherwise the failure is "Rating must be between 1 and 5" |
| KTTask.Described | KidTask/src/main/java/models/Task.java:57-59 | a missing description is stored as the empty string, a present one as given |
| KTTask.TaskRecord | KidTask/src/main/java/models/Task.java:25-36 | the task is built exactly when the id, due date, status, type and child id are present, the title passes and the points are positive; each failure is the first one in statement order; a built task holds the arguments and is valid |
| KTTask.NewTask | KidTask/src/main/java/models/Task.java:21-23 | the short constructor is the full one with the generated id, status PENDING and no rating |
| KTTask.ConstructorSkipsRatingCheck | KidTask/src/main/java/models/Task.java:25-36 | the full constructor stores a rating above 5 that `setRating` would refuse |
| KTTask.Task.Create | KidTask/src/main/java/models/Task.java:25-36 | it fails with the record's error, or gives a new task whose fields are the built record |
| KTTask.Task.CreateNew | KidTask/src/main/java/models/Task.java:21-23 | it fails with the short constructor's error, or gives a new task whose fields are its record |
| KTTask.Task.SetTitle | KidTask/src/main/java/models/Task.java:46-51 | the result is the title check; only a passing title changes the task, and only its title; validity is kept |
| KTTask.Task.SetDescription | KidTask/src/main/java/models/Task.java:57-59 | only the description changes, to the given text or the empty string |
| KTTask.Task.SetDueDate | KidTask/src/main/java/models/Task.java:65-67 | a missing date fails on "dueDate" and changes nothing; otherwise only the due date changes |
| KTTask.Task.SetPoints | KidTask/src/main/java/models/Task.java:73-78 | the result is the points check; only passing points change the task, and only its points; validity is kept |
| KTTask.Task.SetStatus | KidTask/src/main/java/models/Task.java:84-86 | a missing status fails on "status" and changes nothing; otherwise only the status changes |
| KTTask.Task.SetType | KidTask/src/main/java/models/Task.java:92-94 | a missing type fails on "type" and changes nothing; otherwise only the type changes |
| KTTask.Task.SetChildId | KidTask/src/main/java/models/Task.java:100-102 | a missing child id fails on "childId" and changes nothing; otherwise only the child id changes |
| KTTask.Task.SetRating | KidTask/src/main/java/models/Task.java:108-113 | the result is the rating check; a refused rating changes nothing; an accepted one replaces only the rating, which is then absent or between 1 and 5 |
| KTTask.EqualsById | KidTask/src/main/java/models/Task.java:115-120 | `equals` is reflexive, symmetric and transitive, holds exactly for the same id, and never holds for null |
| KTWish.CheckTitle | KidTask/src/main/java/models/Wish.java:40-45 | a title passes exactly when it is present and not blank; otherwise the failure is "Wish title is required" |
| KTWish.CheckCost | KidTask/src/main/java/models/Wish.java:59-64 | a cost passes exactly when it is positive; otherwise the failure is "Cost must be positive" |
| KTWish.CheckMinLevel | KidTask/src/main/java/models/Wish.java:70-75 | a minimum level passes exactly when it is at least 1; otherwise the failure is "Minimum level must be >= 1" |
| KTWish.WishRecord | KidTask/src/main/java/models/Wish.java:20-30 | the wish is built exactly when the id and requesting child are present, the title passes, the cost is positive and the minimum level is at least 1; each failure is the first one in statement order; a built wish holds the arguments and is valid |
| KTWish.NewWish | KidTask/src/main/java/models/Wish.java:16-18 | the short constructor is the full one with the generated id, not approved and no approver |
| KTWish.Wish.Create | KidTask/src/main/java/models/Wish.java:20-30 | it fails with the record's error, or gives a new wish whose fields are the built record |
| KTWish.Wish.CreateNew | KidTask/src/main/java/models/Wish.java:16-18 | it fails with the short constructor's error, or gives a new wish whose fields are its record |
| KTWish.Wish.SetTitle | KidTask/src/main/java/models/Wish.java:40-45 | the result is the title check; only a passing title changes the wish, and only its title; validity is kept |
| KTWish.Wish.SetDescription | KidTask/src/main/java/models/Wish.java:51-53 | only the description changes, to the given text or the empty string |
| KTWish.Wish.SetCostPoints | KidTask/src/main/java/models/Wish.java:59-64 | the result is the cost check; only a passing cost changes the wish, and only its cost; validity is kept |
| KTWish.Wish.SetMinLevel | KidTask/src/main/java/models/Wish.java:70-75 | the result is the minimum-level check; only a passing level changes the wish, and only that field; validity is kept |
| KTWish.Wish.SetApproved | KidTask/src/main/java/models/Wish.java:81-83 | only the approval flag changes, to the given value |
| KTWish.Wish.SetRequestedByChildId | KidTask/src/main/java/models/Wish.java:89-91 | a missing child id fails on "requestedByChildId" and changes nothing; otherwise only that field changes |
| KTWish.Wish.SetApprovedByUserId | KidTask/src/main/java/models/Wish.java:97-99 | only the approver changes, to the given value or none |
| KTTaskManager.RequireTask | KidTask/src/main/java/managers/TaskManager.java:106-112 | the task is found exactly when its id is filed, and otherwise the failure reads "Task not found: " and the id |
| KTTaskManager.OfType | KidTask/src/main/java/managers/TaskManager.java:53-58 | `listTasks(type)` holds exactly the filed tasks of that type |
| KTTaskManager.PendingFor | KidTask/src/main/java/managers/TaskManager.java:60-66 | the pending listing holds exactly the filed tasks of that child whose status is PENDING |
| KTTaskManager.TaskAdded | KidTask/src/main/java/managers/TaskManager.java:39-47 | an unknown child fails with "Unknown child: " and the id; a task the constructor refuses fails with its error; otherwise the new PENDING task with the fresh id and that child is filed under its id, and every task stays filed under its own id |
| KTTaskManager.Completion | KidTask/src/main/java/managers/TaskManager.java:68-78 | an unknown task, a task of another child and a task that is not PENDING fail with their messages, in that order; it succeeds exactly otherwise, and then only that task changes, to COMPLETED |
| KTTaskManager.Settlement | KidTask/src/main/java/managers/TaskManager.java:80-89 | a role other than parent or teacher, an unknown task and a task that is not COMPLETED fail with their messages and change nothing; the rest passes exactly for a rating from 1 to 5; only that task can change, and on a pass it is APPROVED with the rating |
| KTTaskManager.Approval | KidTask/src/main/java/managers/TaskManager.java:80-96 | `approveTask` passes exactly for an approver role, a COMPLETED task, a rating from 1 to 5, a known child and points that are not negative; only that task and that child's ledger change; on a pass the task is APPROVED with the rating, and the child gains the task's points, the rating in its sum and one in its count |
| KTTaskManager.Reward | KidTask/src/main/java/managers/TaskManager.java:91-93 | recording the rating and then crediting the points passes exactly for a rating from 1 to 5 and points that are not negative; a pass adds both to the ledger and recomputes the level; a valid ledger stays valid |
| KTTaskManager.AddedTaskListed | KidTask/src/main/java/managers/TaskManager.java:39-66 | a newly added task appears in its child's pending listing and in its type's listing, and nothing else changes in either |
| KTTaskManager.CompletionLeavesPending | KidTask/src/main/java/managers/TaskManager.java:60-78 | completing a task removes exactly that task from its child's pending listing |
| KTTaskManager.ApprovalPaysOnce | KidTask/src/main/java/managers/TaskManager.java:80-96 | after a successful approval, a second approval of the same task fails as not COMPLETED and changes nothing, so a task is paid at most once |
| KTTaskManager.RefusedRatingStillApproves | KidTask/src/main/java/managers/TaskManager.java:84-89 | a rating outside 1 to 5 is reported, yet the task is left APPROVED with nothing paid, and any later approval of it is refused |
| KTTaskManager.UnknownChildStillApproves | KidTask/src/main/java/managers/TaskManager.java:88-101 | when the task's child is unknown the call fails, but the task is left APPROVED and rated, with no ledger changed |
| KTTaskManager.ApprovalKeepsInvariants | KidTask/src/main/java/managers/TaskManager.java:80-96 | approval keeps every task filed under its own id and every child's ledger valid |
| KTTaskManager.CompleteThenApprove | KidTask/src/main/java/managers/TaskManager.java:68-96 | a valid PENDING task, completed by its own child and then approved by a parent or teacher with a rating from 1 to 5, ends APPROVED with that rating, and the child gains its points and one more rating |
| KTTaskManager.TaskManager.constructor | KidTask/src/main/java/managers/TaskManager.java:22-32 | loading files every task and every child under its id, a later one replacing an earlier one with the same id |
| KTTaskManager.TaskManager.AddChildIfMissing | KidTask/src/main/java/managers/TaskManager.java:34-37 | a child whose id is already filed changes nothing; otherwise the child is filed under its id |
| KTTaskManager.TaskManager.AddTask | KidTask/src/main/java/managers/TaskManager.java:39-47 | a failure leaves the tasks unchanged; a success returns the new task and leaves the tasks exactly as `TaskAdded` says |
| KTTaskManager.TaskManager.GetChild | KidTask/src/main/java/managers/TaskManager.java:98-104 | the child is found exactly when its id is filed, and is the filed object with that id; otherwise the failure reads "Unknown child: " and the id |
| KTTaskManager.TaskManager.MarkCompleted | KidTask/src/main/java/managers/TaskManager.java:68-78 | the outcome and the tasks after are those of `Completion`, with no change on failure |
| KTTaskManager.TaskManager.ApproveTask | KidTask/src/main/java/managers/TaskManager.java:80-96 | the tasks change as `Settlement` says, partial updates included; once that passes, an unknown child fails and a known child's ledger changes as `Reward` says; no other child changes |
| KTTaskManager.TaskManager.SettleTask | KidTask/src/main/java/managers/TaskManager.java:80-89 | the outcome and the tasks after are those of `Settlement` |
| KTTaskManager.PayChild | KidTask/src/main/java/managers/TaskManager.java:91-93 | the outcome and the child's ledger after are those of `Reward` |
| KTWishManager.WishAdded | KidTask/src/main/java/managers/WishManager.java:26-31 | a wish the constructor refuses fails with its error; otherwise the new wish is filed under the fresh id, and every wish stays filed under its own id |
| KTWishManager.AvailableFor | KidTask/src/main/java/managers/WishManager.java:37-41 | the available listing holds exactly the filed wishes whose minimum level the child's level reaches |
| KTWishManager.WishApproval | KidTask/src/main/java/managers/WishManager.java:43-61 | an unknown wish answers false and an approved one true, both changing nothing; the answer is true exactly for an approved wish or one the child's level and balance cover; a negative cost fails; the wishes or the ledger change only when the wish is marked approved by the approver and its cost is debited |
| KTWishManager.ApprovalIdempotent | KidTask/src/main/java/managers/WishManager.java:43-61 | approving a wish again answers true and changes nothing, whoever approves and whatever the ledger |
| KTWishManager.ChargedWishWasAvailable | KidTask/src/main/java/managers/WishManager.java:37-61 | approval keeps the ledger valid and the wishes keyed, and a child is charged only for a wish available to it, by exactly its cost |
| KTWishManager.AvailableWishApproved | KidTask/src/main/java/managers/WishManager.java:37-61 | an available, unapproved, valid wish the child can pay for is approved by the approver, and the child pays exactly its cost |
| KTWishManager.WishManager.constructor | KidTask/src/main/java/managers/WishManager.java:16-24 | loading files every wish under its id, a later one replacing an earlier one with the same id |
| KTWishManager.WishManager.AddWish | KidTask/src/main/java/managers/WishManager.java:26-31 | a failure leaves the wishes unchanged; a success returns the new wish and leaves the wishes exactly as `WishAdded` says |
| KTWishManager.WishManager.ApproveWish | KidTask/src/main/java/managers/WishManager.java:43-61 | the answer, the wishes after and the child's ledger after are those of `WishApproval`; only the wishes and the child's balance and level can change, so the child's id and name stay |
| KTDataManager.Ensured | KidTask/src/main/java/managers/DataManager.java:190-205 | a missing file is created holding just the header line; an existing file is left as it is |
| KTDataManager.Body | KidTask/src/main/java/managers/DataManager.java:33-34 | the first line is read as the header and dropped, and the body is everything after it |
| KTDataManager.Escape | KidTask/src/main/java/managers/DataManager.java:182-184 | the escaped text holds no comma, and text without a comma is left as it is |
| KTDataManager.OptionalReal | KidTask/src/main/java/managers/DataManager.java:186-188 | a blank cell is no rating; any other cell reads as a number exactly when the JDK reads it, and then as that number |
| KTDataManager.TaskOfCells | KidTask/src/main/java/managers/DataManager.java:36-49 | a line of fewer than nine cells is skipped; otherwise it reads exactly when the date, points, status, type and rating cells parse, the title is not blank and the points are positive, and the task read is valid and holds the cells |
| KTDataManager.LoadedTasks | KidTask/src/main/java/managers/DataManager.java:29-55 | a missing file loads no tasks, and any failure is "Failed to load tasks" |
| KTDataManager.SavedTasks | KidTask/src/main/java/managers/DataManager.java:57-79 | the saved file is the header followed by one line per task |
| KTDataManager.EscapedTask | KidTask/src/main/java/managers/DataManager.java:182-184 | a task without commas in its title and description reads back unchanged |
| KTDataManager.TaskCellsRoundTrip | KidTask/src/main/java/managers/DataManager.java:36-72 | the cells written for a saveable task read back as the task with its commas escaped |
| KTDataManager.TaskLineRoundTrip | KidTask/src/main/java/managers/DataManager.java:34-72 | a written task line is not blank and reads back as the task with its commas escaped |
| KTDataManager.SaveThenLoadTasks | KidTask/src/main/java/managers/DataManager.java:29-79 | loading the file saved from saveable tasks gives back those tasks, in order, with their commas escaped |
| KTDataManager.CommaTitleBreaksLoad | KidTask/src/main/java/managers/DataManager.java:36-53 | a valid task titled with a comma is saved with a blank title, so loading the saved file fails with "Failed to load tasks" |
| KTDataManager.ApproverOf | KidTask/src/main/java/managers/DataManager.java:98 | a blank approver cell is no approver; any other cell is the approver id as written |
| KTDataManager.WishOfCells | KidTask/src/main/java/managers/DataManager.java:88-100 | a line of fewer than eight cells is skipped; otherwise it reads exactly when both numbers parse, the title is not blank, the cost is positive and the minimum level at least 1, and the wish read is valid and holds the cells |
| KTDataManager.LoadedWishes | KidTask/src/main/java/managers/DataManager.java:81-106 | a missing file loads no wishes, and any failure is "Failed to load wishes" |
| KTDataManager.SavedWishes | KidTask/src/main/java/managers/DataManager.java:108-129 | the saved file is the header followed by one line per wish |
| KTDataManager.EscapedWish | KidTask/src/main/java/managers/DataManager.java:98-122 | a wish without commas in its title and description and without a blank approver id reads back unchanged |
| KTDataManager.WishCellsRoundTrip | KidTask/src/main/java/managers/DataManager.java:88-122 | the cells written for a saveable wish read back as the wish escaped |
| KTDataManager.WishLineRoundTrip | KidTask/src/main/java/managers/DataManager.java:86-122 | a written wish line is not blank and reads back as the wish escaped |
| KTDataManager.SaveThenLoadWishes | KidTask/src/main/java/managers/DataManager.java:81-129 | loading the file saved from saveable wishes gives back those wishes, in order, escaped |
| KTDataManager.ChildOfCells | KidTask/src/main/java/managers/DataManager.java:138-152 | a line of fewer than seven cells or of a user who is not a child is skipped; a role that is no constant's exact name fails; a child read has a valid ledger and a name that is not blank, and holds the cells |
| KTDataManager.LoadedChildren | KidTask/src/main/java/managers/DataManager.java:131-158 | a missing file loads no children, and any failure is "Failed to load users" |
| KTDataManager.SavedChildren | KidTask/src/main/java/managers/DataManager.java:160-180 | the saved file is the header followed by one line per child, so any parent or teacher line is dropped |
| KTDataManager.EscapedChild | KidTask/src/main/java/managers/DataManager.java:168 | a child without a comma in its name reads back unchanged |
| KTDataManager.ChildCellsRoundTrip | KidTask/src/main/java/managers/DataManager.java:138-173 | the cells written for a saveable child read back as the child with its name escaped |
| KTDataManager.ChildLineRoundTrip | KidTask/src/main/java/managers/DataManager.java:136-173 | a written child line is not blank and reads back as the child with its name escaped |
| KTDataManager.SaveThenLoadChildren | KidTask/src/main/java/managers/DataManager.java:131-180 | loading the file saved from saveable children gives back those children, in order, with their names escaped |
| KTDataManager.UnknownRoleBreaksLoad | KidTask/src/main/java/managers/DataManager.java:140 | a user line whose role is written in lower case makes the whole file fail to load |
| KTDataManager.ReadTasks | KidTask/src/main/java/managers/DataManager.java:34-50 | the line loop reads the lines as the task reader collects them |
| KTDataManager.WriteTasks | KidTask/src/main/java/managers/DataManager.java:62-75 | the line loop writes exactly the saved tasks file |
| KTDataManager.ReadWishes | KidTask/src/main/java/managers/DataManager.java:86-101 | the line loop reads the lines as the wish reader collects them |
| KTDataManager.WriteWishes | KidTask/src/main/java/managers/DataManager.java:113-125 | the line loop writes exactly the saved wishes file |
| KTDataManager.ReadChildren | KidTask/src/main/java/managers/DataManager.java:136-153 | the line loop reads the lines as the child reader collects them |
| KTDataManager.WriteChildren | KidTask/src/main/java/managers/DataManager.java:165-176 | the line loop writes exactly the saved users file |
| KTDataManager.DataManager.LoadTasks | KidTask/src/main/java/managers/DataManager.java:29-55 | the tasks file is created if missing, and the result is what loading the file as it was gives |
| KTDataManager.DataManager.SaveTasks | KidTask/src/main/java/managers/DataManager.java:57-79 | the tasks file becomes the saved file of the given tasks |
| KTDataManager.DataManager.LoadWishes | KidTask/src/main/java/managers/DataManager.java:81-106 | the wishes file is created if missing, and the result is what loading the file as it was gives |
| KTDataManager.DataManager.SaveWishes | KidTask/src/main/java/managers/DataManager.java:108-129 | the wishes file becomes the saved file of the given wishes |
| KTDataManager.DataManager.LoadChildren | KidTask/src/main/java/managers/DataManager.java:131-158 | the users file is created if missing, and the result is what loading the file as it was gives |
| KTDataManager.DataManager.SaveChildren | KidTask/src/main/java/managers/DataManager.java:160-180 | the users file becomes the saved file of the given children |
| DeskUser.LevelForXp | Desktop/383/KidTask/src/project/model/User.java:97-112 | for experience that is not negative the level is between 1 and 5; below 5 it is the band of 150 points the experience falls in, and 5 needs at least 600 |
| DeskUser.Earn | Desktop/383/KidTask/src/project/model/User.java:84-95 | the wallet always moves by the amount; a positive amount also raises the experience by it and recomputes the level; any other amount leaves experience and level alone |
| DeskUser.StartConsistent | Desktop/383/KidTask/src/project/model/User.java:26-40 | a new user's level is the one its experience gives |
| DeskUser.EarnKeepsConsistent | Desktop/383/KidTask/src/project/model/User.java:84-112 | earning or spending keeps the level equal to the one the experience gives, between 1 and 5 |
| DeskUser.LevelForXpMonotone | Desktop/383/KidTask/src/project/model/User.java:97-112 | more experience never gives a lower level |
| DeskUser.EarnNeverLowersLevel | Desktop/383/KidTask/src/project/model/User.java:84-95 | earning or spending never lowers the level or the experience |
| DeskUser.EarnAllKeepsLevel | Desktop/383/KidTask/src/project/model/User.java:84-112 | over any sequence of earnings and spendings the level stays consistent, never falls and never passes 5 |
| DeskUser.WalletCanGoNegative | Desktop/383/KidTask/src/project/model/User.java:90-93 | spending more than the wallet holds leaves it negative, with the level unchanged |
| DeskUser.User.constructor | Desktop/383/KidTask/src/project/model/User.java:26-40 | a new user has the generated id, the given names, role and password, empty relation lists, no class, an empty wallet, no experience and level 1 |
| DeskUser.User.CreateKid | Desktop/383/KidTask/src/project/model/User.java:43-48 | a kid is a new user with role "kid" and the given age and class |
| DeskUser.User.CreateParent | Desktop/383/KidTask/src/project/model/User.java:50-52 | a parent is a new user with role "parent" |
| DeskUser.User.CreateTeacher | Desktop/383/KidTask/src/project/model/User.java:54-56 | a teacher is a new user with role "teacher" |
| DeskUser.User.AddChild | Desktop/383/KidTask/src/project/model/User.java:72-75 | the child id is appended to the children list, which is created first when missing |
| DeskUser.User.AddClass | Desktop/383/KidTask/src/project/model/User.java:77-80 | the class id is appended to the class list, which is created first when missing |
| DeskUser.User.AddPoints | Desktop/383/KidTask/src/project/model/User.java:84-95 | the wallet, experience and level change exactly as `Earn` says; a consistent user stays consistent and its level never falls |
| DeskUser.User.UpdateLevel | Desktop/383/KidTask/src/project/model/User.java:97-112 | the level becomes the one the experience gives |
| DeskUserService.UsersWithIds | Desktop/383/KidTask/src/project/service/UserService.java:69-76 | at most one user per listed id, each a known user whose id is on the list |
| DeskUserService.UsersWithIdsComplete | Desktop/383/KidTask/src/project/service/UserService.java:69-76 | every listed id that some user has contributes a user with that id |
| DeskUserService.InKidsOfClasses | Desktop/383/KidTask/src/project/service/UserService.java:89-98 | a user is among the kids of a list of classes exactly when it is a known kid whose class is on the list |
| DeskUserService.UserService.constructor | Desktop/383/KidTask/src/project/service/UserService.java:15-32 | the service holds the loaded list of users |
| DeskUserService.UserService.AddUser | Desktop/383/KidTask/src/project/service/UserService.java:40-43 | the user is appended to the list |
| DeskUserService.UserService.GetUserById | Desktop/383/KidTask/src/project/service/UserService.java:49-54 | no user is found exactly when no user has the id; a user found is on the list and has the id |
| DeskUserService.UserService.GetUserByIdIsFirst | Desktop/383/KidTask/src/project/service/UserService.java:49-54 | the user found is the first on the list with that id |
| DeskUserService.UserService.Login | Desktop/383/KidTask/src/project/service/UserService.java:56-62 | no user is found exactly when none has the name, ignoring case, and the password; a user found is on the list and has both |
| DeskUserService.UserService.GetChildrenOfParent | Desktop/383/KidTask/src/project/service/UserService.java:65-77 | the loop gives nothing for an unknown parent, fails for a parent without a children list, and otherwise gives the parent's listed children in order, skipping unknown ids |
| DeskUserService.UserService.GetKidsOfClass | Desktop/383/KidTask/src/project/service/UserService.java:79-87 | the loop gives exactly the users with role "kid" in that class, in list order |
| DeskUserService.UserService.GetKidsOfTeacher | Desktop/383/KidTask/src/project/service/UserService.java:89-98 | nothing for an unknown teacher; a failure for a teacher without a class list; otherwise the kids of each of the teacher's classes in turn |
| DeskUserService.ChildrenOfParentMembers | Desktop/383/KidTask/src/project/service/UserService.java:65-77 | a parent's children are known users on the parent's list, and every listed id some user has is among them |
| DeskUserService.KidsOfTeacherMembers | Desktop/383/KidTask/src/project/service/UserService.java:89-98 | the kids of a teacher are exactly the known kids in one of the teacher's classes |
| DeskTaskService.NextIdIsNew | Desktop/383/KidTask/src/project/service/TaskService.java:42-51 | the id given to a new task is larger than every id of a list whose ids increase, so it is unused, and the list's ids keep increasing |
| DeskTaskService.Requested | Desktop/383/KidTask/src/project/service/TaskService.java:77-93 | the list keeps its length, and each task is unchanged or was "TODO" and is now "PENDING" |
| DeskTaskService.Payable | Desktop/383/KidTask/src/project/service/TaskService.java:100-103 | a task to pay for is on the list, has the id and is "PENDING" |
| DeskTaskService.Approved | Desktop/383/KidTask/src/project/service/TaskService.java:100-106 | the list keeps its length, and each task is unchanged or was "PENDING" and is now "COMPLETED"; with no payable task nothing changes |
| DeskTaskService.RequestCompletionIdempotent | Desktop/383/KidTask/src/project/service/TaskService.java:77-93 | asking for completion twice gives the list asking once gives |
| DeskTaskService.ApproveTwicePaysOnce | Desktop/383/KidTask/src/project/service/TaskService.java:100-129 | after an approval the same task is no longer payable, and approving again changes nothing |
| DeskTaskService.StepsKeepIds | Desktop/383/KidTask/src/project/service/TaskService.java:77-129 | neither asking nor approving changes an id, so ids keep increasing |
| DeskTaskService.TaskService.constructor | Desktop/383/KidTask/src/project/service/TaskService.java:18-35 | the service holds the user service and the loaded list of tasks |
| DeskTaskService.TaskService.AddTask | Desktop/383/KidTask/src/project/service/TaskService.java:42-54 | a "TODO" task with the next id and the given fields is appended, and ids keep increasing |
| DeskTaskService.TaskService.GetTasksOfKid | Desktop/383/KidTask/src/project/service/TaskService.java:57-64 | the loop gives exactly that kid's tasks, in list order |
| DeskTaskService.TaskService.Find | Desktop/383/KidTask/src/project/service/TaskService.java:78-79 | the loop finds the first task with that id, or reports that none has it |
| DeskTaskService.TaskService.RequestCompletion | Desktop/383/KidTask/src/project/service/TaskService.java:77-93 | the tasks become `Requested` of the old tasks |
| DeskTaskService.TaskService.ApproveTask | Desktop/383/KidTask/src/project/service/TaskService.java:100-129 | the tasks become `Approved` of the old tasks; the user list is unchanged; the kid of a payable task, when known, earns its points as `Earn` says; no other user's wallet changes, and no user's children or classes change |
| DeskWishService.NewWish | Desktop/383/KidTask/src/project/service/WishService.java:40-56 | the new wish has the id one past the list's length, the kid, no price, level 1, and is neither approved nor purchased |
| DeskWishService.ApprovedWishes | Desktop/383/KidTask/src/project/service/WishService.java:94-104 | the list keeps its length, ids and kids; an unknown id changes nothing; only a wish with that id changes, taking the price and level and becoming approved |
| DeskWishService.Purchase | Desktop/383/KidTask/src/project/service/WishService.java:69-91 | it fails exactly when an eligible wish exists but the kid does not; a wish bought is one of that kid with that id, approved, not yet purchased, and within the kid's wallet and level; answering false with a known kid means no wish could be bought |
| DeskWishService.PurchaseTwiceDebitsOnce | Desktop/383/KidTask/src/project/service/WishService.java:69-91 | once a wish is bought, buying it again finds nothing, whatever the wallet holds, so it is paid for at most once |
| DeskWishService.StepsKeepIds | Desktop/383/KidTask/src/project/service/WishService.java:40-104 | approving and buying keep the ids numbering the list from 1 |
| DeskWishService.PurchaseDebitsPrice | Desktop/383/KidTask/src/project/service/WishService.java:81 | paying a price that is not negative takes exactly the price from the wallet and leaves experience and level as they were |
| DeskWishService.WishService.constructor | Desktop/383/KidTask/src/project/service/WishService.java:17-33 | the service holds the user service and the loaded list of wishes |
| DeskWishService.WishService.AddWishFromKid | Desktop/383/KidTask/src/project/service/WishService.java:40-56 | the new wish is appended, and ids keep numbering the list |
| DeskWishService.WishService.GetWishesOfKid | Desktop/383/KidTask/src/project/service/WishService.java:59-67 | the loop gives exactly that kid's wishes, in list order |
| DeskWishService.WishService.ApproveWish | Desktop/383/KidTask/src/project/service/WishService.java:94-104 | the wishes become `ApprovedWishes` of the old wishes |
| DeskWishService.WishService.FindPurchase | Desktop/383/KidTask/src/project/service/WishService.java:70-90 | the loop finds what `Purchase` says for the kid's wallet, or for no kid when no user has the id |
| DeskWishService.WishService.PurchaseWish | Desktop/383/KidTask/src/project/service/WishService.java:69-91 | a failure and a false answer change no wish; a purchase answers true, marks that wish purchased and debits its price from the kid as `Earn` says; the user list is unchanged and only the buying kid's wallet can change |
| Bee2Models.Department | bee-plan-v2/src/models.py:21-24 | the department is the first whitespace-separated word of the code: non-empty, preceded only by whitespace and followed by whitespace or the end; none exactly when the code is blank, where `split()[0]` raises |
| Bee2Models.DepartmentOfWord | bee-plan-v2/src/models.py:21-24 | a code that starts with a word followed by whitespace or nothing has that word as its department ("SENG" of "SENG 101") |
| Bee2Models.Course.constructor | bee-plan-v2/src/models.py:4-19 | the dataclass defaults: no students, not fixed, no fixed and no assigned slots |
| Bee2Models.Course.Full | bee-plan-v2/src/models.py:4-19 | every field holds the value given |
| Bee2Models.Course.Reset | bee-plan-v2/src/models.py:26-32 | a course that is not fixed ends with no slots; a fixed one ends with its fixed slots, in order, whatever it held before |
| Bee2Engine.CourseGroups | bee-plan-v2/src/engine.py:17-29 | YEAR_3 exactly for year 3; CENG_ELECTIVE exactly for a year-4 course of department CENG; SENG_ELECTIVE exactly for a year-4 course of department SENG |
| Bee2Engine.DailyTheoryHours | bee-plan-v2/src/engine.py:90-95 | the counting loop returns the number of hours 0..7 of that day in which the instructor already teaches a theory hour |
| Bee2Engine.Safe | bee-plan-v2/src/engine.py:76-129 | a safe placement is outside the Friday block (day 4, hours 4-5), leaves the year cell and the instructor cell free, keeps the instructor under four theory hours that day, puts a lab only after a theory slot when the course has theory, and never puts a year-3 course beside an elective or a CENG elective beside a SENG elective: the course's groups clash with none recorded at the cell |
| Bee2Engine.SafeUnlessRuleBroken | bee-plan-v2/src/engine.py:76-129 | the converse: a placement that breaks none of those rules is safe, so the early `True` when a group set is empty loses no check |
| Bee2Engine.MarkKeepsBacked | bee-plan-v2/src/engine.py:43-54 | marking keeps the grids consistent: no cell holds an empty group set and every recorded group has a course of its year in that cell |
| Bee2Engine.SafeIsFree | bee-plan-v2/src/engine.py:76-129 | on consistent grids, a cell that is safe for a course holds none of that course's groups |
| Bee2Engine.UnmarkUndoesMark | bee-plan-v2/src/engine.py:56-69 | `_unmark` straight after `_mark` on such a cell gives back all three grids unchanged |
| Bee2Engine.DropAfterAppend | bee-plan-v2/src/engine.py:71-74 | removing the first slot at a day and hour takes back the slot `_mark` appended when the course held no other slot there |
| Bee2Engine.MarkAllBacked | bee-plan-v2/src/engine.py:39-41 | marking a list of fixed slots keeps the grids consistent |
| Bee2Engine.FixedGridsBacked | bee-plan-v2/src/engine.py:31-41 | the grids `reset_grids` builds from the fixed courses are consistent |
| Bee2Engine.Insert | bee-plan-v2/src/engine.py:135 | inserting into a list sorted heaviest first gives a permutation with one more element that is still sorted; the new element goes in at one position, after only elements heavier than it, so it stays ahead of the equal ones |
| Bee2Engine.ByLoad | bee-plan-v2/src/engine.py:135 | the sort gives a permutation of its input ordered by (total hours, lab hours), largest first |
| Bee2Engine.Unfixed | bee-plan-v2/src/engine.py:134 | the list holds only courses that are not fixed, each as many times as in the engine's list |
| Bee2Engine.Plan | bee-plan-v2/src/engine.py:137-142 | every unit of the work list belongs to a course of the list it was built from |
| Bee2Engine.UnitsKinds | bee-plan-v2/src/engine.py:138-142 | a course's own units are its theory units followed by its lab units, and another course's units are none of its |
| Bee2Engine.PlanKinds | bee-plan-v2/src/engine.py:137-142 | in a work list built from courses listed once, each course's units are its theory hours then its lab hours, and an unlisted course has none |
| Bee2Engine.Placed | bee-plan-v2/src/engine.py:156-161 | a slot placed for one unit followed by the slots placed for the later units extends the course's slots by exactly the types of its units from that one on |
| Bee2Engine.SolvedKinds | bee-plan-v2/src/engine.py:131-142 | in the work list `solve` builds, a course that is not fixed and is listed once has its theory units, then its lab units |
| Bee2Engine.PlanUnits | bee-plan-v2/src/engine.py:137-142 | the two counting loops build exactly the work list described by `Plan` |
| Bee2Engine.WorkIsUnfixed | bee-plan-v2/src/engine.py:134-142 | every unit of `solve`'s work list belongs to a course of the engine that is not fixed |
| Bee2Engine.HeldAfterMark | bee-plan-v2/src/engine.py:43-54 | a mark on a cell that `is_safe` accepts leaves every slot already held still held: its year and instructor cells still booked to its course, its groups still recorded and clash-free at its cell, and its instructor still at most four theory hours that day |
| Bee2Engine.HeldWhenMarked | bee-plan-v2/src/engine.py:43-54 | a mark on a safe, placeable cell holds the slot it places: both cells booked to the course with the slot's type, its groups recorded without a clash, at most four theory hours for its instructor that day |
| Bee2Engine.SlotsHeldAfterMark | bee-plan-v2/src/engine.py:43-54 | a safe mark keeps every course's slots held, and the marked course's slots with the new one appended |
| Bee2Engine.TheoryCountAdd | bee-plan-v2/src/engine.py:90-95 | booking a free instructor cell adds one to that instructor's theory count for the day exactly when the booking is a theory hour within the counted hours, and changes no other count |
| Bee2Engine.HeldApart | bee-plan-v2/src/engine.py:76-129 | two different courses holding slots at the same day and hour are of different years, have different instructors, and their groups do not clash |
| Bee2Engine.MarkAllCovers | bee-plan-v2/src/engine.py:39-41 | marking a list of fixed slots keeps every cell already booked and every group already recorded, and leaves each of those slots booked with its groups recorded |
| Bee2Engine.FixedGridsHold | bee-plan-v2/src/engine.py:31-41 | the grids `reset_grids` builds record every fixed slot of every fixed course, and every booking on them belongs to a fixed course |
| Bee2Engine.ExtendsAfterMark | bee-plan-v2/src/engine.py:43-54 | a mark on a cell whose year and instructor cells are free keeps every earlier booking with its course and every recorded group |
| Bee2Engine.HeldClearOfFixed | bee-plan-v2/src/engine.py:76-129 | a course that is not fixed, holding a slot at the day and hour of a fixed slot still on the grids, differs from the fixed course in year and instructor, and their groups do not clash |
| Bee2Engine.NotHeldWhereFree | bee-plan-v2/src/engine.py:82-83 | a course holds no slot at a cell whose year cell is free |
| Bee2Engine.Engine.constructor | bee-plan-v2/src/engine.py:6-15 | the grids as `reset_grids` leaves them, an empty work list, and every course reset |
| Bee2Engine.Engine.ResetGrids | bee-plan-v2/src/engine.py:31-41 | the grids hold exactly the fixed slots of the fixed courses, every course holds what `reset` leaves, and the engine is consistent |
| Bee2Engine.Engine.ResetOne | bee-plan-v2/src/engine.py:37-41 | one course reset and, when fixed, its fixed slots marked |
| Bee2Engine.Engine.MarkFixed | bee-plan-v2/src/engine.py:39-41 | every fixed slot marked in order, the course's own slots untouched |
| Bee2Engine.Engine.Mark | bee-plan-v2/src/engine.py:43-54 | the grids as `MarkGrids` describes; the slot appended unless it is a fixed allocation; a safe, placeable mark of a course that is not fixed keeps the engine consistent |
| Bee2Engine.Engine.MarkedValid | bee-plan-v2/src/engine.py:43-54 | after a safe mark of a course that is not fixed, the grids are consistent and every slot of every course that is not fixed is held |
| Bee2Engine.Engine.Unmark | bee-plan-v2/src/engine.py:56-74 | the grids as `UnmarkGrids` describes and the first slot at that day and hour removed |
| Bee2Engine.Engine.IsSafe | bee-plan-v2/src/engine.py:76-129 | the answer is `Safe` of the current grids and the course's current slots |
| Bee2Engine.Engine.Backtrack | bee-plan-v2/src/engine.py:147-163 | on success every course's slots extend the old ones by exactly the types of its units from `index` on; on failure the grids and all slots are as before; either way every slot of a course that is not fixed stays held on the grids (booked to its course, clash-free, outside the Friday block, at most four theory hours a day) |
| Bee2Engine.Engine.Undo | bee-plan-v2/src/engine.py:162 | `_unmark` right after `_mark` on a free cell restores the grids and the course's slots |
| Bee2Engine.Engine.TryCell | bee-plan-v2/src/engine.py:157-162 | one cell of the search, placed only where `is_safe` holds: success extends the slots as `Backtrack` promises, failure leaves everything as it was, and every slot of a course that is not fixed stays held |
| Bee2Engine.Engine.Prepare | bee-plan-v2/src/engine.py:131-143 | the grids hold only the fixed slots, every course is reset, and the work list is the units of the courses that are not fixed, heaviest first |
| Bee2Engine.Engine.Solve | bee-plan-v2/src/engine.py:131-145 | fixed courses keep their fixed slots; on success every other course's slot types are its theory hours then its lab hours, no two such courses of one year or one instructor share a day and hour, no two such courses with clashing groups share one, no slot lies in the Friday block, and each theory slot's instructor has at most four theory hours that day; every booking and group of the fixed slots is still on the grids, and no other course shares a day and hour with a fixed slot while sharing the fixed course's year or instructor or while their groups clash; on failure those courses hold no slot and the grids hold only the fixed slots |
| Bee2Engine.Engine.ValidConflictFree | bee-plan-v2/src/engine.py:147-163 | on a consistent engine no two different courses that are not fixed share a day and hour while sharing a year or an instructor or while their groups clash |
| Bee2Engine.Engine.ValidClearOfFixed | bee-plan-v2/src/engine.py:31-41 | on a consistent engine no course that is not fixed shares a day and hour with a fixed slot of a fixed course while sharing its year or instructor or while their groups clash |
| Bee2Engine.Engine.ValidKeepsFixed | bee-plan-v2/src/engine.py:31-41 | a consistent engine still holds every booking `reset_grids` made for the fixed courses, with the same course, and every group it recorded |
| Bee2Engine.Engine.ValidPlaced | bee-plan-v2/src/engine.py:76-95 | on a consistent engine every slot of a course that is not fixed lies on days 0-4, hours 0-7, outside the Friday block, and a theory slot's instructor has at most four theory hours that day |
| Bee2Reporting.Entries | bee-plan-v2/src/reporting.py:10 | one entry per course, in the courses' order, with its code, its fixed flag and its slots |
| Bee2Reporting.OfKind | bee-plan-v2/src/reporting.py:23-24 | the slots kept are exactly the slots of that type |
| Bee2Reporting.Latest | bee-plan-v2/src/reporting.py:27 | a slot of the list no earlier, by (day, hour), than any other |
| Bee2Reporting.Earliest | bee-plan-v2/src/reporting.py:28 | a slot of the list no later, by (day, hour), than any other |
| Bee2Reporting.LabTooEarlyIff | bee-plan-v2/src/reporting.py:26-32 | the rule is broken exactly when some lab slot is no later than some theory slot |
| Bee2Reporting.OnlyOneKindIsFine | bee-plan-v2/src/reporting.py:26 | a course with no lab slot or no theory slot is never reported |
| Bee2Reporting.Message | bee-plan-v2/src/reporting.py:33 | the message starts with "HATA: ", so it never equals the acceptance text |
| Bee2Reporting.Violations | bee-plan-v2/src/reporting.py:8-33 | at most one message per course |
| Bee2Reporting.ViolationsCover | bee-plan-v2/src/reporting.py:10-33 | every reported course that is not fixed has its message, and every message names such a course |
| Bee2Reporting.ViolationsSnoc | bee-plan-v2/src/reporting.py:10-33 | one more course adds its message exactly when it is reported |
| Bee2Reporting.Report | bee-plan-v2/src/reporting.py:35 | the report is never empty; it is the single acceptance line exactly when no course is reported, and otherwise the violations |
| Bee2Reporting.ReportGenerator.constructor | bee-plan-v2/src/reporting.py:3-5 | the courses kept as given |
| Bee2Reporting.ReportGenerator.GenerateValidationReport | bee-plan-v2/src/reporting.py:7-35 | the loop returns `Report` of the courses |
| BeeSchedule.NewCourse | BeePlan/src/main/java/datastructures/Course.java:16-24 | the fields as given and a lab capacity of zero |
| BeeSchedule.FreeSlot | BeePlan/src/main/java/datastructures/Schedule.java:42-48 | the first timeslot of the day that is absent or null, or none when every one is taken |
| BeeSchedule.FreeCellFrom | BeePlan/src/main/java/datastructures/Schedule.java:40-50 | the first free cell scanning the days in order and the timeslots within each day, or none when every cell from that day on is taken |
| BeeSchedule.PlaceOne | BeePlan/src/main/java/datastructures/Schedule.java:39-50 | the day maps are kept; a taken cell is never overwritten; the only cell that changes is the first free one, which then holds the course; a full week is unchanged |
| BeeSchedule.PlaceAll | BeePlan/src/main/java/datastructures/Schedule.java:37-52 | the day maps are kept, no taken cell is overwritten, and every cell that changes holds one of the courses |
| BeeSchedule.FullWeekUnchanged | BeePlan/src/main/java/datastructures/Schedule.java:37-52 | with no free cell, placing any courses changes nothing |
| BeeSchedule.PlaceOneFillsFirstFree | BeePlan/src/main/java/datastructures/Schedule.java:39-50 | with a free cell, the first free cell now holds the course |
| BeeSchedule.AggregateKeys | BeePlan/src/main/java/datastructures/Schedule.java:63-70 | the aggregate's keys are exactly the lecturer keys of the courses ("UNKNOWN" for a null lecturer) |
| BeeSchedule.TheoryOfSnoc | BeePlan/src/main/java/datastructures/Schedule.java:65-68 | one more course adds its theory hours to its lecturer's total only |
| BeeSchedule.TheoryOfAbsent | BeePlan/src/main/java/datastructures/Schedule.java:65-68 | a lecturer with no course has a total of zero |
| BeeSchedule.AggregateSums | BeePlan/src/main/java/datastructures/Schedule.java:63-70 | each lecturer's entry is the sum of the theory hours of that lecturer's courses |
| BeeSchedule.Schedule.constructor | BeePlan/src/main/java/datastructures/Schedule.java:14-23 | exactly the five weekday maps, all empty, and no course |
| BeeSchedule.Schedule.AddCourse | BeePlan/src/main/java/datastructures/Schedule.java:34 | the course appended to the list |
| BeeSchedule.Schedule.PlaceCoursesAuto | BeePlan/src/main/java/datastructures/Schedule.java:37-52 | the grid becomes `PlaceAll` of the old grid and the course list |
| BeeSchedule.Schedule.PlaceCourse | BeePlan/src/main/java/datastructures/Schedule.java:39-50 | the grid becomes `PlaceOne` of the old grid |
| BeeSchedule.Schedule.PlaceInDay | BeePlan/src/main/java/datastructures/Schedule.java:41-48 | placed exactly when the day has a free timeslot, and then only the first one changes, to hold the course |
| BeeSchedule.Schedule.DetectConflicts | BeePlan/src/main/java/datastructures/Schedule.java:55-60 | no problem is ever reported |
| BeeSchedule.Schedule.AggregateTheoryHoursByInstructor | BeePlan/src/main/java/datastructures/Schedule.java:63-70 | the loop returns `Aggregate` of the course list |
| BeeConstraint.KeyLines | BeePlan/src/main/java/datastructures/Constraint.java:27-31 | at most one message per key visited |
| BeeConstraint.KeyLinesCover | BeePlan/src/main/java/datastructures/Constraint.java:27-31 | every visited entry that passes the test has its message, and every message is that of such an entry |
| BeeConstraint.KeyLinesCount | BeePlan/src/main/java/datastructures/Constraint.java:66-70 | over keys visited once each, one message per entry that passes the test |
| BeeConstraint.FridayProblems | BeePlan/src/main/java/datastructures/Constraint.java:20-34 | nothing when the rule is off or the grid has no Friday map |
| BeeConstraint.FridayCount | BeePlan/src/main/java/datastructures/Constraint.java:20-34 | with the rule on, one message per taken Friday cell, and each taken cell has its message |
| BeeConstraint.LabProblems | BeePlan/src/main/java/datastructures/Constraint.java:37-48 | nothing when the rule is off; at most one message per course |
| BeeConstraint.LabProblemsCover | BeePlan/src/main/java/datastructures/Constraint.java:42-46 | every course with lab hours and no theory hours has its message, and every message names such a course |
| BeeConstraint.CapacityProblems | BeePlan/src/main/java/datastructures/Constraint.java:51-59 | at most one message per course |
| BeeConstraint.CapacityProblemsCover | BeePlan/src/main/java/datastructures/Constraint.java:53-57 | every lab course with a capacity over 40 has its message, and every message names such a course |
| BeeConstraint.InstructorCount | BeePlan/src/main/java/datastructures/Constraint.java:62-72 | one message per lecturer whose courses hold more than four theory hours in all |
| BeeConstraint.InstructorOverLimit | BeePlan/src/main/java/datastructures/Constraint.java:62-72 | each such lecturer gets the message with that total |
| BeeConstraint.AllProblems | BeePlan/src/main/java/datastructures/Constraint.java:75-82 | no problem at all exactly when each of the four checks finds none |
| BeeConstraint.Constraint.constructor | BeePlan/src/main/java/datastructures/Constraint.java:8-11 | both rules start switched on |
| BeeConstraint.Constraint.SetFridayExamBlock | BeePlan/src/main/java/datastructures/Constraint.java:14 | the Friday switch set, the other kept |
| BeeConstraint.Constraint.SetLabAfterTheory | BeePlan/src/main/java/datastructures/Constraint.java:17 | the lab switch set, the other kept |
| BeeConstraint.Constraint.CheckFridayBlock | BeePlan/src/main/java/datastructures/Constraint.java:20-34 | given an order that lists each Friday timeslot once, the loop returns `FridayProblems`: nothing with the rule off or no Friday map, otherwise one message per taken Friday cell, each taken cell with its message |
| BeeConstraint.Constraint.CheckLabAfterTheory | BeePlan/src/main/java/datastructures/Constraint.java:37-48 | the loop returns `LabProblems` of the course list |
| BeeConstraint.Constraint.CheckCapacity | BeePlan/src/main/java/datastructures/Constraint.java:51-59 | the loop returns `CapacityProblems` of the course list |
| BeeConstraint.Constraint.CheckInstructorLimit | BeePlan/src/main/java/datastructures/Constraint.java:62-72 | given an order that lists each lecturer key once, the loop returns `InstructorProblems`: one message per lecturer with more than four theory hours in all, each carrying that lecturer's total |
| BeeConstraint.Constraint.RunAll | BeePlan/src/main/java/datastructures/Constraint.java:75-82 | the four lists concatenated in order, as `AllProblems`; their total length is the taken Friday cells (rule on), the lab and capacity messages, and the lecturers over the limit |
| BeeInstructor.NewInstructor | BeePlan/src/main/java/datastructures/Instructor.java:12-14 | no name and an empty availability, so available nowhere |
| BeeInstructor.CreateInstructor | BeePlan/src/main/java/datastructures/Instructor.java:16-19 | the name as given; a null availability becomes an empty map, available nowhere |
| BeeInstructor.AvailableIff | BeePlan/src/main/java/datastructures/Instructor.java:27-30 | an unknown day or a null list means unavailable; otherwise available exactly when the list holds the timeslot |

## Left out

- User interfaces, command-line menus and program entry points: Swing, PyQt and console code only present the operations modelled here.
- File and JSON input and output: a file is the sequence of its lines, or a list that is passed in. Creating directories, reader and writer errors, and the Gson wrapper of the Desktop copy are not modelled.
- The save after each change in the managers and services is not modelled. The new in-memory state is what would be saved.
- UUID generation: a freshly generated id is a parameter (`freshId`).
- The JDK's `LocalDate` and `Double` text conversions: they are a parameter (`LibraryText`), and the round-trip lemmas assume it reads back what it writes, for numbers the values a `double` holds (`Faithful`); which reals are `double`s is part of the parameter (`isDouble`), not defined. `Numbers.WholeTextFaithful` shows the assumption can be met. `Integer.parseInt`, `Integer.toString` and the boolean text forms are modelled exactly, for ASCII digits.
- Ratings, averages and rating sums are mathematical reals, not IEEE doubles.
- Java `int` overflow is not modelled: points, levels and counters are unbounded integers. The round-trip lemmas require values that fit in an `int`.
- Unicode case mapping and whitespace: only the ASCII part is modelled, for `equalsIgnoreCase`, `toUpperCase`, `trim`, `isBlank` and Python's `split`.
- `HashMap` iteration order. The KidTask managers' listings are sets. Where order shows in output (`Constraint.checkFridayBlock`, `checkInstructorLimit`), the order is a parameter, and those checks require it to list each key of the map once; which order Java picks is not modelled.
- Object identity and aliasing of values: entities stored in maps and lists are values. A setter called on a stored `Task` or `Course` after it was listed would show in every holder in Java; the model does not track that sharing.
- `hashCode` of `Task`, `Wish` and `Child`: only `equals` is modelled.
- Line breaks inside fields of the comma-separated `DataManager` files: in Java a field holding a newline splits its line on the way back. The model treats each written line as one string whatever it holds, so its round-trip lemmas do not show that failure.
- A null task or wish id inside the KidTask managers is not modelled: ids are strings.
- K2Child.ChildRecord: the `Objects.requireNonNull` checks on id, name and role in the kid_task2 `User(id, name, role)` constructor (kid_task2/src/main/java/kidtask/model/User.java:33-35) are not modelled: ids and names are strings and roles a datatype, so none can be null.
- `toString` methods and the no-argument `User()` constructor of the Desktop copy, which exist for display and the JSON reader.
- `getAllUsers` and `getAllTasks` of the Desktop services, which return the list itself.
- Console messages: `print` in `engine.py` `solve`, and the messages of the Desktop task service.
- `ReportGenerator` in `reporting.py` also receives the rooms, which it never reads; the model keeps only the courses.
- The `Course` record of `models.py`: its catalogue fields are constants here, since only `assigned_slots` is changed by the code modelled.
- The `Schedule` id and the setters that replace its grid or course list wholesale.
- The getters and setters of `Instructor`: they read or replace the name and the map, which are plain values here.
- Bee2Engine.ByLoad: states that the result is a permutation of the input sorted heaviest first. That courses of equal weight keep their input order, as Python's stable sort promises, is stated only for one insertion at a time, by `Insert`.
- Bee2Engine.CourseGroups: requires `HasGroups`, that a fourth-year course has a department. For a blank code Python raises `IndexError`; the engine's operations assume every course has a code.
- BeeSchedule.AggregateSums: states each lecturer's entry; that the entries add up to the theory hours of all courses is not stated.
