/** The bot's record store and its three session handlers, as a class whose
    one field is the `users` table. Each method is proved against the
    function of module Sessions that says what it does to the table. */
module Bot {
  import opened PlayerRecords
  import opened Rewards
  import opened Sessions

  class RockyflowBot {
    var users: Users

    /** `init_database`: `CREATE TABLE IF NOT EXISTS` keeps whatever rows the
        database file already holds. */
    constructor (stored: Users)
      ensures users == stored
    {
      users := stored;
    }

    /** `get_user_data`: the stored record, or nothing for an unknown id. */
    method GetUserData(id: UserId) returns (data: Option<Record>)
      ensures data.Some? <==> id in users
      ensures data.Some? ==> data.value == users[id]
    {
      if id in users {
        data := Some(users[id]);
      } else {
        data := None;
      }
    }

    /** `create_user`: insert the default record unless the id exists. */
    method CreateUser(id: UserId)
      modifies this
      ensures users == Created(old(users), id)
    {
      if id !in users {
        users := users[id := Default];
      }
    }

    /** `update_user_data`: make sure the record exists, then assign the
        named columns in keyword order. With no keywords the statement is
        `UPDATE users SET  WHERE ...`, which SQLite refuses after the insert
        has been committed: `ok` is false and only the insert took effect. */
    method UpdateUserData(id: UserId, kwargs: seq<Assignment>) returns (ok: bool)
      modifies this
      ensures ok <==> kwargs != []
      ensures var created := Created(old(users), id);
        users == if ok then created[id := ApplyAll(created[id], kwargs)] else created
    {
      CreateUser(id);
      var row := users[id];
      var i := 0;
      while i < |kwargs|
        invariant 0 <= i <= |kwargs|
        invariant row == ApplyAll(users[id], kwargs[..i])
      {
        assert kwargs[..i + 1][..i] == kwargs[..i];
        row := Assign(row, kwargs[i]);
        i := i + 1;
      }
      assert kwargs[..i] == kwargs;
      ok := kwargs != [];
      if ok {
        users := users[id := row];
      }
    }

    /** The `/mine` command. */
    method Mine(id: UserId, now: Timestamp) returns (result: MineResult)
      modifies this
      ensures (users, result) == MineStep(old(users), id, now)
    {
      var data := GetUserData(id);
      if data.None? {
        CreateUser(id);
        data := GetUserData(id);
      }
      if Active(data.value) {
        return AlreadyActive;
      }
      var _ := UpdateUserData(id, [SetSessionBeginTime(Some(now))]);
      result := Started(data.value);
    }

    /** The "end session" button of the mining view. */
    method EndSessionButton(id: UserId, d: Drops) returns (result: EndResult)
      modifies this
      ensures (users, result) == EndStep(old(users), id, d, Button)
    {
      var data := GetUserData(id);
      if data.None? || !Active(data.value) {
        return NoActiveSession;
      }
      var record := data.value;
      var xpAmount := XpFor(d);
      var coinsAmount := CoinsFor(d);
      var inventory := record.inventory;
      inventory := inventory[Coal := CountOf(inventory, Coal) + d.coal];
      inventory := inventory[Iron := CountOf(inventory, Iron) + d.iron];
      inventory := inventory[Gold := CountOf(inventory, Gold) + d.gold];
      var kwargs := [SetInventory(inventory), SetXp(record.xp + xpAmount),
                     SetCoins(record.coins + coinsAmount), SetSessionBeginTime(None)];
      var _ := UpdateUserData(id, kwargs);
      assert ColumnOf(kwargs[0]) in ColumnsOf(kwargs) && ColumnOf(kwargs[1]) in ColumnsOf(kwargs);
      assert ColumnOf(kwargs[2]) in ColumnsOf(kwargs) && ColumnOf(kwargs[3]) in ColumnsOf(kwargs);
      ApplyAllExact(record, kwargs, Credited(record, d, Button));
      result := Ended(d, xpAmount, record.coins + coinsAmount);
    }

    /** The `/endsession` command: as the button, but the coins column is not
        among the columns it writes. */
    method EndSessionCommand(id: UserId, d: Drops) returns (result: EndResult)
      modifies this
      ensures (users, result) == EndStep(old(users), id, d, Command)
    {
      var data := GetUserData(id);
      if data.None? || !Active(data.value) {
        return NoActiveSession;
      }
      var record := data.value;
      var xpAmount := XpFor(d);
      var inventory := record.inventory;
      inventory := inventory[Coal := CountOf(inventory, Coal) + d.coal];
      inventory := inventory[Iron := CountOf(inventory, Iron) + d.iron];
      inventory := inventory[Gold := CountOf(inventory, Gold) + d.gold];
      var kwargs := [SetInventory(inventory), SetXp(record.xp + xpAmount), SetSessionBeginTime(None)];
      var _ := UpdateUserData(id, kwargs);
      assert ColumnOf(kwargs[0]) in ColumnsOf(kwargs) && ColumnOf(kwargs[1]) in ColumnsOf(kwargs);
      assert ColumnOf(kwargs[2]) in ColumnsOf(kwargs);
      ApplyAllExact(record, kwargs, Credited(record, d, Command));
      result := Ended(d, xpAmount, record.coins);
    }
  }
}
