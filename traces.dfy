/** Any sequence of `/mine`, "end session" button and `/endsession`
    requests, handled one after the other, and what holds across it. */
module Traces {
  import opened PlayerRecords
  import opened Rewards
  import opened Sessions

  datatype Request =
    | MineRequest(id: UserId, now: Timestamp)
    | EndRequest(id: UserId, drops: Drops, path: EndPath)

  function Step(users: Users, req: Request): Users
  {
    match req
    case MineRequest(id, now) => MineStep(users, id, now).0
    case EndRequest(id, d, path) => EndStep(users, id, d, path).0
  }

  function Run(users: Users, reqs: seq<Request>): Users
    decreases |reqs|
  {
    if reqs == [] then users else Run(Step(users, reqs[0]), reqs[1..])
  }

  /** Balances and counts are never negative. */
  predicate RecordOk(r: Record)
  {
    && r.xp >= 0
    && r.coins >= 0
    && forall k :: k in r.inventory ==> r.inventory[k] >= 0
  }

  predicate AllOk(users: Users)
  {
    forall id :: id in users ==> RecordOk(users[id])
  }

  lemma StepKeepsOk(users: Users, req: Request)
    requires AllOk(users)
    ensures AllOk(Step(users, req))
  {
    match req
    case MineRequest(id, now) =>
    case EndRequest(id, d, path) =>
      if id in users && Active(users[id]) {
        AddDropsGrows(users[id].inventory, d);
      }
  }

  /** Starting from non-negative records, every request sequence keeps
      every balance and count non-negative. */
  lemma {:induction false} RunKeepsOk(users: Users, reqs: seq<Request>)
    requires AllOk(users)
    ensures AllOk(Run(users, reqs))
    decreases |reqs|
  {
    if reqs != [] {
      StepKeepsOk(users, reqs[0]);
      RunKeepsOk(Step(users, reqs[0]), reqs[1..]);
    }
  }

  function OpenSessions(users: Users, id: UserId): nat
  {
    if id in users && Active(users[id]) then 1 else 0
  }

  /** How many requests of `reqs` start a session for `id`. */
  function Starts(users: Users, reqs: seq<Request>, id: UserId): nat
    decreases |reqs|
  {
    if reqs == [] then 0
    else
      var req := reqs[0];
      var started := req.MineRequest? && req.id == id && MineStep(users, id, req.now).1.Started?;
      (if started then 1 else 0) + Starts(Step(users, req), reqs[1..], id)
  }

  /** How many requests of `reqs` end a session for `id` and credit it. */
  function Ends(users: Users, reqs: seq<Request>, id: UserId): nat
    decreases |reqs|
  {
    if reqs == [] then 0
    else
      var req := reqs[0];
      var ended := req.EndRequest? && req.id == id && EndStep(users, id, req.drops, req.path).1.Ended?;
      (if ended then 1 else 0) + Ends(Step(users, req), reqs[1..], id)
  }

  lemma StepSessions(users: Users, req: Request, id: UserId)
    ensures var after := Step(users, req);
      var started := req.MineRequest? && req.id == id && MineStep(users, id, req.now).1.Started?;
      var ended := req.EndRequest? && req.id == id && EndStep(users, id, req.drops, req.path).1.Ended?;
      (if ended then 1 else 0) + OpenSessions(after, id) == (if started then 1 else 0) + OpenSessions(users, id)
  {
  }

  /** Every credited end is matched by a start: over any request sequence
      the ends for a player plus the session left open equal the starts
      plus the session open at the outset. So rewards are credited at most
      once per session. */
  lemma {:induction false} SessionsBalance(users: Users, reqs: seq<Request>, id: UserId)
    ensures Ends(users, reqs, id) + OpenSessions(Run(users, reqs), id)
         == Starts(users, reqs, id) + OpenSessions(users, id)
    ensures Ends(users, reqs, id) <= Starts(users, reqs, id) + OpenSessions(users, id)
    decreases |reqs|
  {
    if reqs != [] {
      StepSessions(users, reqs[0], id);
      SessionsBalance(Step(users, reqs[0]), reqs[1..], id);
    }
  }

  /** What one request can do to an existing record: experience, coins and
      counts only grow, gear and the current mine are never written. */
  predicate Grown(before: Record, after: Record)
  {
    && after.xp >= before.xp
    && after.coins >= before.coins
    && before.inventory.Keys <= after.inventory.Keys
    && (forall k :: k in before.inventory ==> after.inventory[k] >= before.inventory[k])
    && after.gear == before.gear
    && after.currentMine == before.currentMine
  }

  lemma StepGrows(users: Users, req: Request, id: UserId)
    requires id in users
    ensures id in Step(users, req) && Grown(users[id], Step(users, req)[id])
  {
    match req
    case MineRequest(_, _) =>
    case EndRequest(_, d, _) =>
      AddDropsGrows(users[id].inventory, d);
  }

  lemma GrownTransitive(a: Record, b: Record, c: Record)
    requires Grown(a, b) && Grown(b, c)
    ensures Grown(a, c)
  {
  }

  /** No record is ever deleted, and none loses experience, coins or items
      or has its gear or mine changed, whatever requests arrive. */
  lemma {:induction false} RunGrows(users: Users, reqs: seq<Request>, id: UserId)
    requires id in users
    ensures id in Run(users, reqs)
    ensures Grown(users[id], Run(users, reqs)[id])
    decreases |reqs|
  {
    if reqs != [] {
      var next := Step(users, reqs[0]);
      StepGrows(users, reqs[0], id);
      RunGrows(next, reqs[1..], id);
      GrownTransitive(users[id], next[id], Run(next, reqs[1..])[id]);
    }
  }

  /** Without the button, no request changes anyone's coins. */
  lemma {:induction false} CommandsKeepCoins(users: Users, reqs: seq<Request>, id: UserId)
    requires id in users
    requires forall k :: 0 <= k < |reqs| ==> !(reqs[k].EndRequest? && reqs[k].path == Button)
    ensures id in Run(users, reqs) && Run(users, reqs)[id].coins == users[id].coins
    decreases |reqs|
  {
    if reqs != [] {
      var next := Step(users, reqs[0]);
      assert id in next && next[id].coins == users[id].coins;
      assert forall k :: 0 <= k < |reqs[1..]| ==> reqs[1..][k] == reqs[k + 1];
      CommandsKeepCoins(next, reqs[1..], id);
    }
  }

  /** As bot.py computes it, a button end 40 minutes "before" its start
      (the local clock fell back an hour in between) draws negative amounts
      and leaves a fresh player with negative coins, xp and coal. */
  lemma AsWrittenEndGoesNegative()
    ensures var users: Users := map[7 := Default.(sessionBeginTime := Some("2026-11-01T01:50:00"))];
      var after := CreditedAsWritten(users[7], RawDraws(-20, -12, -4), Button);
      && AllOk(users)
      && Active(users[7])
      && after.coins == -76 && after.xp == -140 && after.inventory[Coal] == -20
      && !RecordOk(after)
  {
  }

  /** With the drawn amounts clamped, every end, along either path, keeps
      every balance and count non-negative, whatever was drawn. */
  lemma ClampedEndKeepsOk(users: Users, id: UserId, raw: RawDraws, path: EndPath)
    requires AllOk(users)
    ensures AllOk(EndStep(users, id, ClampDraws(raw), path).0)
  {
    StepKeepsOk(users, EndRequest(id, ClampDraws(raw), path));
  }
}
