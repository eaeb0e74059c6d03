/** A row of the bot's `users` table and the column assignments that
    `update_user_data` turns into one `UPDATE ... SET` statement. */
module PlayerRecords {

  datatype Option<+T> = None | Some(value: T)

  type UserId = int

  /** A JSON object of item (or gear) name to count, as stored in the
      `inventory` and `gear` text columns. */
  type Counts = map<string, int>

  /** The columns of one `users` row other than its key `user_id`. */
  datatype Record = Record(
    inventory: Counts,
    xp: int,
    coins: int,
    gear: Counts,
    currentMine: string,
    sessionBeginTime: Option<string>)

  const StarterMine: string := "starter mine"

  /** The column defaults of `CREATE TABLE users`: what `INSERT OR IGNORE
      INTO users (user_id)` stores for a new id. */
  const Default: Record := Record(map[], 0, 0, map[], StarterMine, None)

  /** A session is open when `session_begin_time` is truthy: present and
      not the empty string. */
  predicate Active(r: Record)
  {
    r.sessionBeginTime.Some? && r.sessionBeginTime.value != ""
  }

  datatype Column =
    | InventoryColumn
    | XpColumn
    | CoinsColumn
    | GearColumn
    | CurrentMineColumn
    | SessionBeginTimeColumn

  /** One keyword argument of `update_user_data`: a column and its new value. */
  datatype Assignment =
    | SetInventory(newInventory: Counts)
    | SetXp(newXp: int)
    | SetCoins(newCoins: int)
    | SetGear(newGear: Counts)
    | SetCurrentMine(newMine: string)
    | SetSessionBeginTime(newTime: Option<string>)

  function ColumnOf(a: Assignment): Column
  {
    match a
    case SetInventory(_) => InventoryColumn
    case SetXp(_) => XpColumn
    case SetCoins(_) => CoinsColumn
    case SetGear(_) => GearColumn
    case SetCurrentMine(_) => CurrentMineColumn
    case SetSessionBeginTime(_) => SessionBeginTimeColumn
  }

  /** `r` holds the value that `a` assigns, in the column `a` names. */
  predicate Holds(r: Record, a: Assignment)
  {
    match a
    case SetInventory(v) => r.inventory == v
    case SetXp(v) => r.xp == v
    case SetCoins(v) => r.coins == v
    case SetGear(v) => r.gear == v
    case SetCurrentMine(v) => r.currentMine == v
    case SetSessionBeginTime(v) => r.sessionBeginTime == v
  }

  /** `r1` and `r2` have the same value in column `c`. */
  predicate Agree(r1: Record, r2: Record, c: Column)
  {
    match c
    case InventoryColumn => r1.inventory == r2.inventory
    case XpColumn => r1.xp == r2.xp
    case CoinsColumn => r1.coins == r2.coins
    case GearColumn => r1.gear == r2.gear
    case CurrentMineColumn => r1.currentMine == r2.currentMine
    case SessionBeginTimeColumn => r1.sessionBeginTime == r2.sessionBeginTime
  }

  /** The effect of one `column = ?` pair of the UPDATE statement. */
  function Assign(r: Record, a: Assignment): (r': Record)
    ensures Holds(r', a)
    ensures forall c :: c != ColumnOf(a) ==> Agree(r', r, c)
  {
    match a
    case SetInventory(v) => r.(inventory := v)
    case SetXp(v) => r.(xp := v)
    case SetCoins(v) => r.(coins := v)
    case SetGear(v) => r.(gear := v)
    case SetCurrentMine(v) => r.(currentMine := v)
    case SetSessionBeginTime(v) => r.(sessionBeginTime := v)
  }

  /** The effect of the whole `SET` list, pairs taken in keyword order. */
  function ApplyAll(r: Record, assignments: seq<Assignment>): Record
    decreases |assignments|
  {
    if assignments == [] then r
    else
      var n := |assignments| - 1;
      Assign(ApplyAll(r, assignments[..n]), assignments[n])
  }

  /** A column that no assignment names keeps its value. */
  lemma {:induction false} ApplyAllFrame(r: Record, assignments: seq<Assignment>, c: Column)
    requires forall k :: 0 <= k < |assignments| ==> ColumnOf(assignments[k]) != c
    ensures Agree(ApplyAll(r, assignments), r, c)
    decreases |assignments|
  {
    if assignments != [] {
      var n := |assignments| - 1;
      ApplyAllFrame(r, assignments[..n], c);
    }
  }

  /** The last assignment to a column decides its value. */
  lemma {:induction false} ApplyAllLastWins(r: Record, assignments: seq<Assignment>, k: nat)
    requires k < |assignments|
    requires forall j :: k < j < |assignments| ==> ColumnOf(assignments[j]) != ColumnOf(assignments[k])
    ensures Holds(ApplyAll(r, assignments), assignments[k])
    decreases |assignments|
  {
    var n := |assignments| - 1;
    if k < n {
      ApplyAllLastWins(r, assignments[..n], k);
      var before := ApplyAll(r, assignments[..n]);
      assert Agree(Assign(before, assignments[n]), before, ColumnOf(assignments[k]));
    }
  }

  /** The columns a keyword list names. */
  function ColumnsOf(assignments: seq<Assignment>): set<Column>
  {
    set k | 0 <= k < |assignments| :: ColumnOf(assignments[k])
  }

  predicate DistinctColumns(assignments: seq<Assignment>)
  {
    forall j, k :: 0 <= j < k < |assignments| ==> ColumnOf(assignments[j]) != ColumnOf(assignments[k])
  }

  lemma AgreesAfterUpdate(r: Record, assignments: seq<Assignment>, target: Record, c: Column)
    requires DistinctColumns(assignments)
    requires forall k :: 0 <= k < |assignments| ==> Holds(target, assignments[k])
    requires c !in ColumnsOf(assignments) ==> Agree(r, target, c)
    ensures Agree(ApplyAll(r, assignments), target, c)
  {
    if k :| 0 <= k < |assignments| && ColumnOf(assignments[k]) == c {
      ApplyAllLastWins(r, assignments, k);
    } else {
      ApplyAllFrame(r, assignments, c);
    }
  }

  /** A keyword list with distinct names turns `r` into `target` exactly
      when `target` holds every value it assigns and agrees with `r` on
      every column it does not name. */
  lemma ApplyAllExact(r: Record, assignments: seq<Assignment>, target: Record)
    requires DistinctColumns(assignments)
    ensures ApplyAll(r, assignments) == target <==>
      && (forall k :: 0 <= k < |assignments| ==> Holds(target, assignments[k]))
      && (forall c :: c !in ColumnsOf(assignments) ==> Agree(r, target, c))
  {
    var result := ApplyAll(r, assignments);
    if result == target {
      forall k | 0 <= k < |assignments| ensures Holds(target, assignments[k]) {
        ApplyAllLastWins(r, assignments, k);
      }
      forall c | c !in ColumnsOf(assignments) ensures Agree(r, target, c) {
        ApplyAllFrame(r, assignments, c);
      }
    } else if (forall k :: 0 <= k < |assignments| ==> Holds(target, assignments[k]))
           && (forall c :: c !in ColumnsOf(assignments) ==> Agree(r, target, c)) {
      AgreesAfterUpdate(r, assignments, target, InventoryColumn);
      AgreesAfterUpdate(r, assignments, target, XpColumn);
      AgreesAfterUpdate(r, assignments, target, CoinsColumn);
      AgreesAfterUpdate(r, assignments, target, GearColumn);
      AgreesAfterUpdate(r, assignments, target, CurrentMineColumn);
      AgreesAfterUpdate(r, assignments, target, SessionBeginTimeColumn);
      assert false;
    }
  }
}
