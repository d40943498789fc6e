/** The Desktop copy's `User`: one class for kids, parents and teachers,
    told apart by a role string. A kid has a spendable wallet (`points`)
    and an experience total (`totalPoints`) that only grows and sets the
    level, capped at 5. */
module DeskUser {
  import opened Base

  /** The three point fields of a user. */
  datatype Progress = Progress(points: int, totalPoints: int, level: int)

  /** A new user: empty wallet, no experience, level 1. */
  function Start(): Progress
  {
    Progress(0, 0, 1)
  }

  const MaxLevel: int := 5
  const PointsPerLevel: int := 150

  /** `updateLevel`: one level per 150 points of experience, at most 5. */
  function LevelForXp(xp: int): (level: int)
    ensures xp >= 0 ==> 1 <= level <= MaxLevel
    ensures xp >= 0 && level < MaxLevel ==> (level - 1) * PointsPerLevel <= xp < level * PointsPerLevel
    ensures xp >= 0 && level == MaxLevel ==> xp >= (MaxLevel - 1) * PointsPerLevel
  {
    var calculated := JavaDiv(xp, PointsPerLevel) + 1;
    if calculated > MaxLevel then MaxLevel else calculated
  }

  /** `addPoints(p)`: a positive amount raises wallet and experience and
      recomputes the level; any other amount changes the wallet alone, so
      spending never lowers the level. */
  function Earn(g: Progress, p: int): (r: Progress)
    ensures r.points == g.points + p
    ensures p > 0 ==> r.totalPoints == g.totalPoints + p && r.level == LevelForXp(r.totalPoints)
    ensures p <= 0 ==> r.totalPoints == g.totalPoints && r.level == g.level
  {
    if p > 0 then Progress(g.points + p, g.totalPoints + p, LevelForXp(g.totalPoints + p))
    else g.(points := g.points + p)
  }

  /** The level is the one the experience gives; nothing but `addPoints`
      changes these fields, so every user satisfies this. */
  predicate Consistent(g: Progress)
  {
    g.totalPoints >= 0 && g.level == LevelForXp(g.totalPoints)
  }

  lemma StartConsistent()
    ensures Consistent(Start())
  {
  }

  lemma EarnKeepsConsistent(g: Progress, p: int)
    requires Consistent(g)
    ensures Consistent(Earn(g, p))
    ensures 1 <= Earn(g, p).level <= MaxLevel
  {
  }

  lemma LevelForXpMonotone(x: int, y: int)
    requires 0 <= x <= y
    ensures LevelForXp(x) <= LevelForXp(y)
  {
  }

  /** The level never falls, whatever is earned or spent. */
  lemma EarnNeverLowersLevel(g: Progress, p: int)
    requires Consistent(g)
    ensures Earn(g, p).level >= g.level
    ensures Earn(g, p).totalPoints >= g.totalPoints
  {
    if p > 0 {
      LevelForXpMonotone(g.totalPoints, g.totalPoints + p);
    }
  }

  /** The state after a sequence of `addPoints` calls. */
  function EarnAll(g: Progress, ps: seq<int>): Progress
    decreases |ps|
  {
    if ps == [] then g else EarnAll(Earn(g, ps[0]), ps[1..])
  }

  /** Over any history the level stays within 1..5 and never falls. */
  lemma {:induction false} EarnAllKeepsLevel(g: Progress, ps: seq<int>)
    requires Consistent(g)
    ensures Consistent(EarnAll(g, ps))
    ensures g.level <= EarnAll(g, ps).level <= MaxLevel
    decreases |ps|
  {
    if ps != [] {
      EarnKeepsConsistent(g, ps[0]);
      EarnNeverLowersLevel(g, ps[0]);
      EarnAllKeepsLevel(Earn(g, ps[0]), ps[1..]);
    }
  }

  /** Nothing bounds the wallet from below: spending more than it holds
      leaves it negative. */
  lemma WalletCanGoNegative()
    ensures Earn(Start(), -10).points == -10
    ensures Earn(Start(), -10).level == 1
  {
  }

  class User {
    // No method of the class changes these after creation.
    const id: string
    const name: string
    const surname: string
    const age: int
    const role: string
    const password: string
    const classId: Option<string>
    var points: int
    var totalPoints: int
    var level: int
    var childrenIds: Option<seq<string>>
    var classIds: Option<seq<string>>

    function Wallet(): Progress
      reads this
    {
      Progress(points, totalPoints, level)
    }

    ghost predicate Valid()
      reads this
    {
      Consistent(Wallet())
    }

    /** `User(name, surname, role, password)`: a generated id (passed in),
        empty relation lists, no class, and the starting wallet. */
    constructor (freshId: string, name: string, surname: string, role: string, password: string)
      ensures Valid()
      ensures id == freshId && this.name == name && this.surname == surname
      ensures this.role == role && this.password == password && age == 0
      ensures Wallet() == Start()
      ensures classId == None && childrenIds == Some([]) && classIds == Some([])
    {
      id := freshId;
      this.name := name;
      this.surname := surname;
      this.role := role;
      this.password := password;
      age := 0;
      classId := None;
      points := 0;
      totalPoints := 0;
      level := 1;
      childrenIds := Some([]);
      classIds := Some([]);
    }

    /** The same constructor followed by the two assignments `createKid`
        makes to age and class. */
    constructor Kid(freshId: string, name: string, surname: string, age: int, classId: string, password: string)
      ensures Valid()
      ensures id == freshId && this.name == name && this.surname == surname
      ensures role == "kid" && this.password == password && this.age == age
      ensures Wallet() == Start()
      ensures this.classId == Some(classId) && childrenIds == Some([]) && classIds == Some([])
    {
      id := freshId;
      this.name := name;
      this.surname := surname;
      role := "kid";
      this.password := password;
      this.age := age;
      this.classId := Some(classId);
      points := 0;
      totalPoints := 0;
      level := 1;
      childrenIds := Some([]);
      classIds := Some([]);
    }

    /** `createKid`: role "kid" with the given age and class. */
    static method CreateKid(freshId: string, name: string, surname: string, age: int, classId: string, password: string)
      returns (u: User)
      ensures fresh(u) && u.Valid()
      ensures u.id == freshId && u.name == name && u.surname == surname && u.password == password
      ensures u.role == "kid" && u.age == age && u.classId == Some(classId)
      ensures u.Wallet() == Start() && u.childrenIds == Some([]) && u.classIds == Some([])
    {
      u := new User.Kid(freshId, name, surname, age, classId, password);
    }

    /** `createParent`. */
    static method CreateParent(freshId: string, name: string, surname: string, password: string)
      returns (u: User)
      ensures fresh(u) && u.Valid()
      ensures u.id == freshId && u.name == name && u.surname == surname && u.password == password
      ensures u.role == "parent" && u.age == 0 && u.classId == None
      ensures u.Wallet() == Start() && u.childrenIds == Some([]) && u.classIds == Some([])
    {
      u := new User(freshId, name, surname, "parent", password);
    }

    /** `createTeacher`. */
    static method CreateTeacher(freshId: string, name: string, surname: string, password: string)
      returns (u: User)
      ensures fresh(u) && u.Valid()
      ensures u.id == freshId && u.name == name && u.surname == surname && u.password == password
      ensures u.role == "teacher" && u.age == 0 && u.classId == None
      ensures u.Wallet() == Start() && u.childrenIds == Some([]) && u.classIds == Some([])
    {
      u := new User(freshId, name, surname, "teacher", password);
    }

    /** `addChild`: a missing list is created first; one id is appended. */
    method AddChild(childId: string)
      modifies this`childrenIds
      ensures childrenIds == Some((if old(childrenIds).None? then [] else old(childrenIds).value) + [childId])
    {
      if childrenIds.None? {
        childrenIds := Some([]);
      }
      childrenIds := Some(childrenIds.value + [childId]);
    }

    /** `addClass`: a missing list is created first; one id is appended. */
    method AddClass(cid: string)
      modifies this`classIds
      ensures classIds == Some((if old(classIds).None? then [] else old(classIds).value) + [cid])
    {
      if classIds.None? {
        classIds := Some([]);
      }
      classIds := Some(classIds.value + [cid]);
    }

    /** `addPoints(p)`. */
    method AddPoints(p: int)
      modifies this`points, this`totalPoints, this`level
      ensures Wallet() == Earn(old(Wallet()), p)
      ensures old(Valid()) ==> Valid() && level >= old(level)
    {
      if p > 0 {
        points := points + p;
        totalPoints := totalPoints + p;
        UpdateLevel();
      } else {
        points := points + p;
      }
      if old(Valid()) {
        EarnNeverLowersLevel(old(Wallet()), p);
      }
    }

    /** `updateLevel`. */
    method UpdateLevel()
      modifies this`level
      ensures level == LevelForXp(totalPoints)
    {
      var calculated := JavaDiv(totalPoints, PointsPerLevel) + 1;
      if calculated > MaxLevel {
        level := MaxLevel;
      } else {
        level := calculated;
      }
    }
  }
}
