/** The record store and the mining-session handlers, stated as functions
    from the table before a request to the table after it. */
module Sessions {
  import opened PlayerRecords
  import opened Rewards

  /** The `users` table: one record per `user_id`. */
  type Users = map<UserId, Record>

  /** What `datetime.now().isoformat()` yields: an opaque, non-empty text. */
  type Timestamp = s: string | s != "" witness "T"

  /** `INSERT OR IGNORE INTO users (user_id)`: a default row for an unknown
      id, nothing for a known one. */
  function Created(users: Users, id: UserId): (u: Users)
    ensures u.Keys == users.Keys + {id}
    ensures id in users ==> u == users
    ensures id !in users ==> u[id] == Default
    ensures forall other :: other in users ==> u[other] == users[other]
  {
    if id in users then users else users[id := Default]
  }

  lemma CreatedIdempotent(users: Users, id: UserId)
    ensures Created(Created(users, id), id) == Created(users, id)
  {
  }

  datatype MineResult =
    | Started(snapshot: Record)   // the record shown in the "you began a mining session" embed
    | AlreadyActive

  /** The `/mine` command: create the record if needed, reject an open
      session, otherwise store the start time. */
  function MineStep(users: Users, id: UserId, now: Timestamp): (Users, MineResult)
  {
    var u := Created(users, id);
    var r := u[id];
    if Active(r) then (u, AlreadyActive)
    else (u[id := r.(sessionBeginTime := Some(now))], Started(r))
  }

  /** Which handler ends the session: the "end session" button credits
      coins, the `/endsession` command does not. */
  datatype EndPath = Button | Command

  datatype EndResult =
    | Ended(drops: Drops, xpGained: nat, balance: int)   // the figures of the "mining session ended!" embed
    | NoActiveSession

  /** The record written back by a successful end. */
  function Credited(r: Record, d: Drops, path: EndPath): Record
  {
    CreditedAsWritten(r, AsRaw(d), path)
  }

  /** The record a successful end writes, as bot.py computes it from the
      amounts as drawn, negative ones included. */
  function CreditedAsWritten(r: Record, raw: RawDraws, path: EndPath): Record
  {
    r.(inventory := AddRawDraws(r.inventory, raw),
       xp := r.xp + RawXp(raw),
       coins := if path == Button then r.coins + RawCoins(raw) else r.coins,
       sessionBeginTime := None)
  }

  /** Where the session length is not negative, the bot's crediting and the
      clamped crediting of this model write the same record. */
  lemma CreditedAgreesOnNonNegative(r: Record, raw: RawDraws, path: EndPath)
    requires raw.coal >= 0 && raw.iron >= 0 && raw.gold >= 0
    ensures CreditedAsWritten(r, raw, path) == Credited(r, ClampDraws(raw), path)
  {
    ClampAgreesOnNonNegative(r.inventory, raw);
  }

  /** Ending a session along `path` with drawn amounts `d`. */
  function EndStep(users: Users, id: UserId, d: Drops, path: EndPath): (Users, EndResult)
  {
    if id !in users || !Active(users[id]) then (users, NoActiveSession)
    else
      var r := Credited(users[id], d, path);
      (users[id := r], Ended(d, XpFor(d), r.coins))
  }

  /** Starting while a session is open is refused and the table is kept. */
  lemma MineRejectsActive(users: Users, id: UserId, now: Timestamp)
    ensures (id in users && Active(users[id])) <==> MineStep(users, id, now).1 == AlreadyActive
    ensures MineStep(users, id, now).1 == AlreadyActive ==> MineStep(users, id, now).0 == users
  {
  }

  /** A first `/mine` creates the default record and then sets only its
      start time; a later one on an idle record sets only its start time. */
  lemma MineStartsSession(users: Users, id: UserId, now: Timestamp)
    requires id !in users || !Active(users[id])
    ensures var (u, result) := MineStep(users, id, now);
      var before := if id in users then users[id] else Default;
      && result == Started(before)
      && u == users[id := before.(sessionBeginTime := Some(now))]
      && Active(u[id])
  {
  }

  lemma MineCreatesDefault(users: Users, id: UserId, now: Timestamp)
    requires id !in users
    ensures var (u, result) := MineStep(users, id, now);
      && result == Started(Default)
      && u.Keys == users.Keys + {id}
      && u[id].inventory == map[] && u[id].gear == map[]
      && u[id].xp == 0 && u[id].coins == 0
      && u[id].currentMine == StarterMine
      && u[id].sessionBeginTime == Some(now)
      && forall other :: other in users ==> u[other] == users[other]
  {
  }

  /** Ending without a record or without an open session is refused and
      the table is kept. */
  lemma EndRejectsIdle(users: Users, id: UserId, d: Drops, path: EndPath)
    ensures (id !in users || !Active(users[id])) <==> EndStep(users, id, d, path).1 == NoActiveSession
    ensures EndStep(users, id, d, path).1 == NoActiveSession ==> EndStep(users, id, d, path).0 == users
  {
  }

  /** A successful end credits exactly the drawn amounts, `XpFor(d)`
      experience and, on the button path only, `CoinsFor(d)` coins; it
      closes the session and touches no other field and no other player. */
  lemma EndCredits(users: Users, id: UserId, d: Drops, path: EndPath)
    requires id in users && Active(users[id])
    ensures var (u, result) := EndStep(users, id, d, path);
      var before := users[id];
      && u.Keys == users.Keys
      && (forall other :: other in users && other != id ==> u[other] == users[other])
      && u[id].inventory[Coal] == CountOf(before.inventory, Coal) + d.coal
      && u[id].inventory[Iron] == CountOf(before.inventory, Iron) + d.iron
      && u[id].inventory[Gold] == CountOf(before.inventory, Gold) + d.gold
      && (forall k :: k in before.inventory && k !in {Coal, Iron, Gold} ==> u[id].inventory[k] == before.inventory[k])
      && u[id].xp == before.xp + 2 * d.coal + 5 * d.iron + 10 * d.gold
      && u[id].coins == (if path == Button then before.coins + d.coal + 3 * d.iron + 5 * d.gold else before.coins)
      && u[id].gear == before.gear
      && u[id].currentMine == before.currentMine
      && u[id].inventory.Keys == before.inventory.Keys + {Coal, Iron, Gold}
      && u[id].sessionBeginTime == None
      && !Active(u[id])
      && result == Ended(d, XpFor(d), u[id].coins)
  {
  }

  /** An end right after a successful end is refused: rewards are never
      credited twice for one session. */
  lemma EndTwiceRejected(users: Users, id: UserId, d1: Drops, d2: Drops, p1: EndPath, p2: EndPath)
    requires EndStep(users, id, d1, p1).1.Ended?
    ensures var u := EndStep(users, id, d1, p1).0;
      EndStep(u, id, d2, p2) == (u, NoActiveSession)
  {
  }

  /** Starting, then ending, moves an idle player back to idle with the
      session's rewards credited. */
  lemma MineThenEnd(users: Users, id: UserId, now: Timestamp, d: Drops, path: EndPath)
    requires id !in users || !Active(users[id])
    ensures var u1 := MineStep(users, id, now).0;
      var (u2, result) := EndStep(u1, id, d, path);
      var before := if id in users then users[id] else Default;
      && result.Ended?
      && u2 == users[id := Credited(before, d, path)]
  {
  }
}
