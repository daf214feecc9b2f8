/**
 * The wager routes: create, the two listings that sweep expired wagers,
 * the incoming listing, respond (accept or reject) and resolve. Each route
 * is a pure step function on `State`, which states its guards and effects,
 * and a method on `Db` that performs the same step in place.
 *
 * JavaScript falsiness of a request field is modelled as "" for a string
 * field and 0 for a number field. Timestamps are integers.
 */
module WagerRoutes {
  import opened Tables

  /** What a handler replies, without HTTP status codes. */
  datatype Outcome =
    | Ok
    | Validation    // 400: a field is missing or invalid
    | NotFound      // 404
    | Insufficient  // 400: 'Insufficient balance'
    | InsertFailed  // the INSERT hit an existing `wager_id`
    | Crash         // an uncaught TypeError: `row.balance` of a missing row

  datatype Step = Step(outcome: Outcome, post: State)

  /* ---------------------------------------------------------------- create */

  /** `!receiver_id || !wager_description || !wager_amount || !expiration_time` */
  predicate MissingCreateField(receiver: string, description: string, amount: int, expiration: int) {
    receiver == "" || description == "" || amount == 0 || expiration == 0
  }

  /** POST /api/wagers/create, by the authenticated `creator`. */
  function CreateWager(s: State, creator: string, receiver: string, description: string,
                       amount: int, expiration: int, id: string, saveTime: int): (r: Step)
    ensures r.post.balances == s.balances && r.post.friends == s.friends
    ensures r.outcome in {Ok, Validation, NotFound, Insufficient, InsertFailed}
    ensures r.outcome == Validation <==> MissingCreateField(receiver, description, amount, expiration)
    ensures r.outcome == NotFound <==>
      !MissingCreateField(receiver, description, amount, expiration) && creator !in s.balances
    ensures r.outcome == Insufficient <==>
      !MissingCreateField(receiver, description, amount, expiration) && creator in s.balances
      && s.balances[creator].balance < amount
    ensures r.outcome == InsertFailed ==> id in s.wagers
    ensures r.outcome == Ok ==>
      id !in s.wagers &&
      r.post.wagers == s.wagers[id := Wager(creator, receiver, description, amount, expiration, saveTime, Incoming)]
    ensures r.outcome != Ok ==> r.post == s
  {
    if MissingCreateField(receiver, description, amount, expiration) then Step(Validation, s)
    else if creator !in s.balances then Step(NotFound, s)
    else if s.balances[creator].balance < amount then Step(Insufficient, s)
    else if id in s.wagers then Step(InsertFailed, s)
    else
      var w := Wager(creator, receiver, description, amount, expiration, saveTime, Incoming);
      Step(Ok, s.(wagers := s.wagers[id := w]))
  }

  /** The handler run against the shared `Db`: the checks of `CreateWager` in the same order, then its writes in place. */
  method Create(db: Db, creator: string, receiver: string, description: string,
                amount: int, expiration: int, id: string, saveTime: int) returns (o: Outcome)
    modifies db
    ensures Step(o, db.Snapshot()) ==
      CreateWager(old(db.Snapshot()), creator, receiver, description, amount, expiration, id, saveTime)
  {
    if MissingCreateField(receiver, description, amount, expiration) {
      return Validation;
    }
    if creator !in db.balances {
      return NotFound;
    }
    if db.balances[creator].balance < amount {
      return Insufficient;
    }
    if id in db.wagers {
      return InsertFailed;
    }
    db.wagers := db.wagers[id := Wager(creator, receiver, description, amount, expiration, saveTime, Incoming)];
    o := Ok;
  }

  /* --------------------------------------------------------------- queries */

  /** A result row of a SELECT on `wagers`. */
  datatype Row = Row(id: string, wager: Wager)

  /** The WHERE clauses of the listings; `accounts` are the ids in `balances`. */
  datatype Query =
    | ForUser(user: string)
    | PendingFor(user: string, accounts: set<string>)
    | PendingOnly(user: string, accounts: set<string>)
    | IncomingFor(user: string, accounts: set<string>)

  predicate Party(w: Wager, user: string) {
    w.creator == user || w.receiver == user
  }

  predicate Picks(q: Query, w: Wager) {
    match q
    case ForUser(u) => Party(w, u)
    case PendingFor(u, acc) =>
      w.creator in acc && w.receiver in acc && Party(w, u) && (w.status == Pending || w.status == Approved)
    case PendingOnly(u, acc) =>
      w.creator in acc && w.receiver in acc && Party(w, u) && w.status == Pending
    case IncomingFor(u, acc) =>
      w.creator in acc && w.receiver in acc && w.receiver == u && w.status == Incoming
  }

  function IdsOf(rows: seq<Row>): set<string> {
    set i | 0 <= i < |rows| :: rows[i].id
  }

  predicate DistinctIds(rows: seq<Row>) {
    forall i, j | 0 <= i < j < |rows| :: rows[i].id != rows[j].id
  }

  /** ORDER BY save_time DESC */
  predicate NewestFirst(rows: seq<Row>) {
    forall i, j | 0 <= i < j < |rows| :: rows[i].wager.saveTime >= rows[j].wager.saveTime
  }

  /** `rows` is the answer to `q` over table `m`: each matching row once, newest first. */
  ghost predicate Selected(rows: seq<Row>, m: map<string, Wager>, q: Query) {
    && (forall i | 0 <= i < |rows| :: rows[i].id in m && m[rows[i].id] == rows[i].wager && Picks(q, rows[i].wager))
    && IdsOf(rows) == (set id | id in m && Picks(q, m[id]))
    && DistinctIds(rows)
    && NewestFirst(rows)
  }

  /** Puts `x` in front of the first row that is not newer than it. */
  function InsertNewestFirst(rows: seq<Row>, x: Row): (r: seq<Row>)
    ensures multiset(r) == multiset(rows) + multiset{x}
  {
    if rows == [] || x.wager.saveTime >= rows[0].wager.saveTime then [x] + rows
    else
      assert rows == [rows[0]] + rows[1..];
      [rows[0]] + InsertNewestFirst(rows[1..], x)
  }

  lemma ConsNewestFirst(h: Row, t: seq<Row>)
    requires NewestFirst(t)
    requires forall y | y in t :: h.wager.saveTime >= y.wager.saveTime
    ensures NewestFirst([h] + t)
  {
  }

  lemma ConsDistinct(h: Row, t: seq<Row>)
    requires DistinctIds(t)
    requires forall y | y in t :: h.id != y.id
    ensures DistinctIds([h] + t)
  {
  }

  lemma {:induction false} InsertKeepsNewestFirst(rows: seq<Row>, x: Row)
    requires NewestFirst(rows)
    ensures NewestFirst(InsertNewestFirst(rows, x))
  {
    if rows == [] || x.wager.saveTime >= rows[0].wager.saveTime {
      ConsNewestFirst(x, rows);
    } else {
      var t := rows[1..];
      assert NewestFirst(t) by {
        forall i, j | 0 <= i < j < |t| ensures t[i].wager.saveTime >= t[j].wager.saveTime {
          assert t[i] == rows[i + 1] && t[j] == rows[j + 1];
        }
      }
      InsertKeepsNewestFirst(t, x);
      var rest := InsertNewestFirst(t, x);
      forall y | y in rest ensures rows[0].wager.saveTime >= y.wager.saveTime {
        assert y in multiset(rest);
        if y != x {
          var k :| 0 <= k < |t| && t[k] == y;
          assert rows[k + 1] == y;
        }
      }
      ConsNewestFirst(rows[0], rest);
    }
  }

  lemma {:induction false} InsertKeepsDistinct(rows: seq<Row>, x: Row)
    requires DistinctIds(rows)
    requires x.id !in IdsOf(rows)
    ensures DistinctIds(InsertNewestFirst(rows, x))
  {
    if rows == [] || x.wager.saveTime >= rows[0].wager.saveTime {
      forall y | y in rows ensures x.id != y.id {
        var k :| 0 <= k < |rows| && rows[k] == y;
      }
      ConsDistinct(x, rows);
    } else {
      var t := rows[1..];
      assert DistinctIds(t) by {
        forall i, j | 0 <= i < j < |t| ensures t[i].id != t[j].id {
          assert t[i] == rows[i + 1] && t[j] == rows[j + 1];
        }
      }
      assert x.id !in IdsOf(t) by {
        forall i | 0 <= i < |t| ensures t[i].id != x.id {
          assert t[i] == rows[i + 1];
        }
      }
      InsertKeepsDistinct(t, x);
      var rest := InsertNewestFirst(t, x);
      forall y | y in rest ensures rows[0].id != y.id {
        assert y in multiset(rest);
        if y != x {
          var k :| 0 <= k < |t| && t[k] == y;
          assert rows[k + 1] == y;
        } else {
          assert rows[0].id in IdsOf(rows);
        }
      }
      ConsDistinct(rows[0], rest);
    }
  }

  /** `rows` answers `q` over the keys `done` of `m` examined so far. */
  ghost predicate SelectedFrom(rows: seq<Row>, m: map<string, Wager>, q: Query, done: set<string>) {
    && (forall i | 0 <= i < |rows| ::
          rows[i].id in done && rows[i].id in m && m[rows[i].id] == rows[i].wager && Picks(q, rows[i].wager))
    && IdsOf(rows) == (set id | id in done && id in m && Picks(q, m[id]))
    && DistinctIds(rows)
    && NewestFirst(rows)
  }

  /** The rows of `InsertNewestFirst(rows, x)` are those of `rows` and `x`. */
  lemma InsertMembers(rows: seq<Row>, x: Row)
    ensures forall y :: y in InsertNewestFirst(rows, x) <==> y in rows || y == x
  {
  }

  lemma IdsOfMembers(rows: seq<Row>, next: seq<Row>, x: Row)
    requires forall y :: y in next <==> y in rows || y == x
    ensures IdsOf(next) == IdsOf(rows) + {x.id}
  {
    forall y | y in IdsOf(next) ensures y in IdsOf(rows) + {x.id} {
      var i :| 0 <= i < |next| && next[i].id == y;
      assert next[i] in next;
      if next[i] != x {
        var k :| 0 <= k < |rows| && rows[k] == next[i];
      }
    }
    forall y | y in IdsOf(rows) + {x.id} ensures y in IdsOf(next) {
      if y == x.id {
        assert x in next;
        var i :| 0 <= i < |next| && next[i] == x;
      } else {
        var i :| 0 <= i < |rows| && rows[i].id == y;
        assert rows[i] in next;
        var k :| 0 <= k < |next| && next[k] == rows[i];
      }
    }
  }

  lemma SelectedFromStep(rows: seq<Row>, m: map<string, Wager>, q: Query, done: set<string>, id: string)
    requires SelectedFrom(rows, m, q, done)
    requires id in m && id !in done
    ensures Picks(q, m[id]) ==> SelectedFrom(InsertNewestFirst(rows, Row(id, m[id])), m, q, done + {id})
    ensures !Picks(q, m[id]) ==> SelectedFrom(rows, m, q, done + {id})
  {
    var x := Row(id, m[id]);
    var next := InsertNewestFirst(rows, x);
    if Picks(q, m[id]) {
      InsertKeepsNewestFirst(rows, x);
      InsertKeepsDistinct(rows, x);
      InsertMembers(rows, x);
      IdsOfMembers(rows, next, x);
      forall i | 0 <= i < |next|
        ensures next[i].id in done + {id} && next[i].id in m && m[next[i].id] == next[i].wager
        ensures Picks(q, next[i].wager)
      {
        assert next[i] in next;
        if next[i] != x {
          var k :| 0 <= k < |rows| && rows[k] == next[i];
        }
      }
    }
  }

  /** One SELECT with `q` and ORDER BY save_time DESC over table `m`. */
  method SelectNewestFirst(m: map<string, Wager>, q: Query) returns (rows: seq<Row>)
    ensures Selected(rows, m, q)
  {
    rows := [];
    var todo := m.Keys;
    while todo != {}
      invariant todo <= m.Keys
      invariant SelectedFrom(rows, m, q, m.Keys - todo)
      decreases todo
    {
      var id :| id in todo;
      SelectedFromStep(rows, m, q, m.Keys - todo, id);
      if Picks(q, m[id]) {
        rows := InsertNewestFirst(rows, Row(id, m[id]));
      }
      assert m.Keys - todo + {id} == m.Keys - (todo - {id});
      todo := todo - {id};
    }
  }

  /* ------------------------------------------------- GET /api/wagers sweep */

  /** The sweep's WHERE: `expiration_time < now AND status != 'expired' AND status != 'completed'`. */
  predicate Overdue(w: Wager, now: int) {
    w.expiration < now && w.status != Expired && w.status != Completed
  }

  /** The sweep UPDATE at the start of GET /api/wagers, over the whole table. */
  function SweepExpired(m: map<string, Wager>, now: int): (r: map<string, Wager>)
    ensures r.Keys == m.Keys
    ensures forall id | id in m :: r[id].(status := m[id].status) == m[id]
    ensures forall id | id in m :: r[id].status == m[id].status || r[id].status == Expired
    ensures forall id | id in m && (m[id].expiration >= now || m[id].status == Completed) :: r[id] == m[id]
    ensures forall id | id in r && r[id].expiration < now :: r[id].status == Expired || r[id].status == Completed
  {
    map id | id in m :: if Overdue(m[id], now) then m[id].(status := Expired) else m[id]
  }

  /** GET /api/wagers: the sweep, then the caller's wagers in either role, newest first. */
  method ListWagers(db: Db, user: string, now: int) returns (rows: seq<Row>)
    modifies db
    ensures db.Snapshot() == old(db.Snapshot()).(wagers := SweepExpired(old(db.wagers), now))
    ensures Selected(rows, db.wagers, ForUser(user))
  {
    db.wagers := SweepExpired(db.wagers, now);
    rows := SelectNewestFirst(db.wagers, ForUser(user));
  }

  /* --------------------------------------------- GET /api/wagers/pending */

  /** `row.expiration_time && expirationDate < currentTime && row.status === 'pending'` */
  predicate Lapsed(w: Wager, now: int) {
    w.expiration != 0 && w.expiration < now && w.status == Pending
  }

  function Lapse(w: Wager, now: int): Wager {
    if Lapsed(w, now) then w.(status := Expired) else w
  }

  /** The store updates queued by the pending listing: each selected row that lapsed becomes 'expired'. */
  function ExpireLapsed(m: map<string, Wager>, user: string, accounts: set<string>, now: int): (r: map<string, Wager>)
    ensures r.Keys == m.Keys
    ensures forall id | id in m :: r[id].(status := m[id].status) == m[id]
    ensures forall id | id in m && r[id] != m[id] ::
      m[id].status == Pending && r[id].status == Expired && Party(m[id], user)
    ensures forall id | id in m && r[id] != m[id] :: Picks(PendingFor(user, accounts), m[id]) && Lapsed(m[id], now)
    ensures forall id | id in r && Picks(PendingFor(user, accounts), m[id]) :: !Lapsed(r[id], now)
  {
    map id | id in m :: if Picks(PendingFor(user, accounts), m[id]) then Lapse(m[id], now) else m[id]
  }

  /** The store after the pending listing's loop has visited `rows`. */
  function LapseRows(m: map<string, Wager>, rows: seq<Row>, now: int): map<string, Wager>
  {
    if rows == [] then m
    else
      var prev := LapseRows(m, rows[..|rows| - 1], now);
      var row := rows[|rows| - 1];
      if Lapsed(row.wager, now) then prev[row.id := row.wager.(status := Expired)] else prev
  }

  predicate KeepsPending(row: Row, now: int) {
    row.wager.status == Pending && !Lapsed(row.wager, now)
  }

  /** `updatedRows.filter(row => row.status === 'pending')` of the rows visited so far. */
  function KeepPending(rows: seq<Row>, now: int): seq<Row>
  {
    if rows == [] then []
    else
      var row := rows[|rows| - 1];
      KeepPending(rows[..|rows| - 1], now) + (if KeepsPending(row, now) then [row] else [])
  }

  lemma {:induction false} LapseRowsAt(m: map<string, Wager>, rows: seq<Row>, now: int)
    requires forall i | 0 <= i < |rows| :: rows[i].id in m && m[rows[i].id] == rows[i].wager
    requires DistinctIds(rows)
    ensures LapseRows(m, rows, now).Keys == m.Keys
    ensures forall id | id in m ::
      LapseRows(m, rows, now)[id] == if id in IdsOf(rows) then Lapse(m[id], now) else m[id]
  {
    if rows != [] {
      var init := rows[..|rows| - 1];
      var row := rows[|rows| - 1];
      assert forall i | 0 <= i < |init| :: init[i] == rows[i];
      LapseRowsAt(m, init, now);
      assert IdsOf(rows) == IdsOf(init) + {row.id} by {
        assert forall i | 0 <= i < |rows| - 1 :: rows[i].id == init[i].id;
      }
      assert row.id !in IdsOf(init);
    }
  }

  lemma {:induction false} KeepPendingMembers(rows: seq<Row>, now: int)
    ensures forall y :: y in KeepPending(rows, now) <==> y in rows && KeepsPending(y, now)
  {
    if rows != [] {
      var init := rows[..|rows| - 1];
      KeepPendingMembers(init, now);
      assert rows == init + [rows[|rows| - 1]];
    }
  }

  lemma {:induction false} KeepPendingNewestFirst(rows: seq<Row>, now: int)
    requires NewestFirst(rows)
    ensures NewestFirst(KeepPending(rows, now))
  {
    if rows != [] {
      var init := rows[..|rows| - 1];
      var row := rows[|rows| - 1];
      assert NewestFirst(init) by {
        assert forall i | 0 <= i < |init| :: init[i] == rows[i];
      }
      KeepPendingNewestFirst(init, now);
      KeepPendingMembers(init, now);
      var kept := KeepPending(init, now);
      forall k | 0 <= k < |kept| ensures kept[k].wager.saveTime >= row.wager.saveTime {
        assert kept[k] in kept;
        var i :| 0 <= i < |init| && init[i] == kept[k];
        assert rows[i] == kept[k];
      }
    }
  }

  lemma {:induction false} KeepPendingDistinct(rows: seq<Row>, now: int)
    requires DistinctIds(rows)
    ensures DistinctIds(KeepPending(rows, now))
  {
    if rows != [] {
      var init := rows[..|rows| - 1];
      var row := rows[|rows| - 1];
      assert DistinctIds(init) by {
        assert forall i | 0 <= i < |init| :: init[i] == rows[i];
      }
      KeepPendingDistinct(init, now);
      KeepPendingMembers(init, now);
      var kept := KeepPending(init, now);
      forall k | 0 <= k < |kept| ensures kept[k].id != row.id {
        assert kept[k] in kept;
        var i :| 0 <= i < |init| && init[i] == kept[k];
        assert rows[i] == kept[k];
      }
    }
  }

  /**
   * What the pending listing answers: from the rows of the SELECT, after the
   * loop has expired the lapsed ones, exactly the caller's rows that are
   * still 'pending', newest first.
   */
  lemma PendingAnswer(m: map<string, Wager>, rows: seq<Row>, user: string, accounts: set<string>, now: int)
    requires Selected(rows, m, PendingFor(user, accounts))
    ensures LapseRows(m, rows, now) == ExpireLapsed(m, user, accounts, now)
    ensures Selected(KeepPending(rows, now), ExpireLapsed(m, user, accounts, now), PendingOnly(user, accounts))
  {
    var m' := ExpireLapsed(m, user, accounts, now);
    LapseRowsAt(m, rows, now);
    var kept := KeepPending(rows, now);
    KeepPendingMembers(rows, now);
    KeepPendingNewestFirst(rows, now);
    KeepPendingDistinct(rows, now);
    forall k | 0 <= k < |kept|
      ensures kept[k].id in m' && m'[kept[k].id] == kept[k].wager
      ensures Picks(PendingOnly(user, accounts), kept[k].wager)
    {
      assert kept[k] in kept;
      var i :| 0 <= i < |rows| && rows[i] == kept[k];
    }
    forall id | id in IdsOf(kept) ensures id in m' && Picks(PendingOnly(user, accounts), m'[id]) {
      var k :| 0 <= k < |kept| && kept[k].id == id;
    }
    forall id | id in m' && Picks(PendingOnly(user, accounts), m'[id]) ensures id in IdsOf(kept) {
      assert id in IdsOf(rows);
      var i :| 0 <= i < |rows| && rows[i].id == id;
      assert rows[i] in kept;
      var k :| 0 <= k < |kept| && kept[k] == rows[i];
    }
  }

  /**
   * GET /api/wagers/pending: selects the caller's 'pending' and 'approved'
   * wagers whose parties both have accounts, newest first; marks each lapsed
   * 'pending' one 'expired' in the store; returns the rows still 'pending'.
   * (The source relabels a lapsed row's in-memory copy 'approval', so the
   * final `status === 'pending'` filter drops it together with the
   * 'approved' rows; here the loop drops it directly.)
   */
  method ListPending(db: Db, user: string, now: int) returns (pending: seq<Row>)
    modifies db
    ensures db.balances == old(db.balances) && db.friends == old(db.friends)
    ensures db.wagers == ExpireLapsed(old(db.wagers), user, db.balances.Keys, now)
    ensures Selected(pending, db.wagers, PendingOnly(user, db.balances.Keys))
    ensures forall i | 0 <= i < |pending| :: !Lapsed(pending[i].wager, now)
  {
    ghost var w0 := db.wagers;
    var rows := SelectNewestFirst(db.wagers, PendingFor(user, db.balances.Keys));
    pending := [];
    var i := 0;
    while i < |rows|
      invariant 0 <= i <= |rows|
      invariant db.balances == old(db.balances) && db.friends == old(db.friends)
      invariant db.wagers == LapseRows(w0, rows[..i], now)
      invariant pending == KeepPending(rows[..i], now)
    {
      var row := rows[i];
      assert rows[..i + 1][..i] == rows[..i];
      if Lapsed(row.wager, now) {
        db.wagers := db.wagers[row.id := row.wager.(status := Expired)];
      } else if row.wager.status == Pending {
        pending := pending + [row];
      }
      i := i + 1;
    }
    assert rows[..i] == rows;
    PendingAnswer(w0, rows, user, db.balances.Keys, now);
    KeepPendingMembers(rows, now);
    forall k | 0 <= k < |pending| ensures !Lapsed(pending[k].wager, now) {
      assert pending[k] in pending;
    }
  }

  /* -------------------------------------------- GET /api/wagers/incoming */

  /** GET /api/wagers/incoming: read only. */
  method ListIncoming(db: Db, user: string) returns (rows: seq<Row>)
    ensures Selected(rows, db.wagers, IncomingFor(user, db.balances.Keys))
  {
    rows := SelectNewestFirst(db.wagers, IncomingFor(user, db.balances.Keys));
  }

  /* --------------------------------------------- PUT /api/wagers/respond */

  predicate BadRespondParams(wagerId: string, action: string) {
    wagerId == "" || action == "" || (action != "accept" && action != "reject")
  }

  /** `SELECT * FROM wagers WHERE wager_id = ? AND receiver_id = ? AND status = 'incoming'` finds a row. */
  predicate AwaitsResponse(m: map<string, Wager>, wagerId: string, user: string) {
    wagerId in m && m[wagerId].receiver == user && m[wagerId].status == Incoming
  }

  /** PUT /api/wagers/respond, by the authenticated `user`. */
  function Respond(s: State, user: string, wagerId: string, action: string): (r: Step)
    ensures r.outcome in {Ok, Validation, NotFound, Insufficient, Crash}
    ensures r.outcome != Ok ==> r.post == s
    ensures r.outcome == Validation <==> BadRespondParams(wagerId, action)
    ensures r.outcome == NotFound <==>
      !BadRespondParams(wagerId, action) && !AwaitsResponse(s.wagers, wagerId, user)
    ensures r.outcome == Crash <==>
      !BadRespondParams(wagerId, action) && AwaitsResponse(s.wagers, wagerId, user)
      && action == "accept" && user !in s.balances
    ensures r.outcome == Insufficient <==>
      !BadRespondParams(wagerId, action) && AwaitsResponse(s.wagers, wagerId, user)
      && action == "accept" && user in s.balances && s.balances[user].balance < s.wagers[wagerId].amount
    ensures r.outcome == Ok ==> AwaitsResponse(s.wagers, wagerId, user)
    ensures r.outcome == Ok && action == "accept" ==>
      r.post == s.(wagers := s.wagers[wagerId := s.wagers[wagerId].(status := Pending)])
    ensures r.outcome == Ok && action == "reject" ==>
      r.post == s.(wagers := s.wagers[wagerId := s.wagers[wagerId].(status := Rejected)],
                   balances := Credit(s.balances, s.wagers[wagerId].creator, s.wagers[wagerId].amount))
  {
    if BadRespondParams(wagerId, action) then Step(Validation, s)
    else if !AwaitsResponse(s.wagers, wagerId, user) then Step(NotFound, s)
    else
      var w := s.wagers[wagerId];
      if action == "accept" then
        if user !in s.balances then Step(Crash, s)
        else if s.balances[user].balance < w.amount then Step(Insufficient, s)
        else Step(Ok, s.(wagers := s.wagers[wagerId := w.(status := Pending)]))
      else
        Step(Ok, s.(wagers := s.wagers[wagerId := w.(status := Rejected)],
                   balances := Credit(s.balances, w.creator, w.amount)))
  }

  /** The handler run against the shared `Db`: the checks of `Respond` in the same order, then its writes in place. */
  method RespondTo(db: Db, user: string, wagerId: string, action: string) returns (o: Outcome)
    modifies db
    ensures Step(o, db.Snapshot()) == Respond(old(db.Snapshot()), user, wagerId, action)
  {
    if BadRespondParams(wagerId, action) {
      return Validation;
    }
    if !AwaitsResponse(db.wagers, wagerId, user) {
      return NotFound;
    }
    var w := db.wagers[wagerId];
    if action == "accept" {
      if user !in db.balances {
        return Crash;
      }
      if db.balances[user].balance < w.amount {
        return Insufficient;
      }
      db.wagers := db.wagers[wagerId := w.(status := Pending)];
    } else {
      db.wagers := db.wagers[wagerId := w.(status := Rejected)];
      db.balances := Credit(db.balances, w.creator, w.amount);
    }
    o := Ok;
  }

  /* --------------------------------------------- PUT /api/wagers/resolve */

  /** `SELECT * FROM wagers WHERE wager_id = ? AND creator_id = ? AND status = 'active'` finds a row. */
  predicate Resolvable(m: map<string, Wager>, wagerId: string, user: string) {
    wagerId in m && m[wagerId].creator == user && m[wagerId].status == Active
  }

  /** PUT /api/wagers/resolve, by the authenticated `user`. */
  function Resolve(s: State, user: string, wagerId: string, winner: string): (r: Step)
    ensures r.outcome in {Ok, Validation, NotFound}
    ensures r.outcome != Ok ==> r.post == s
    ensures r.outcome == NotFound <==>
      wagerId != "" && winner != "" && !Resolvable(s.wagers, wagerId, user)
    ensures r.outcome == Ok <==>
      wagerId != "" && winner != "" && Resolvable(s.wagers, wagerId, user)
      && (winner == s.wagers[wagerId].creator || winner == s.wagers[wagerId].receiver)
    ensures r.outcome == Ok ==>
      r.post == s.(wagers := s.wagers[wagerId := s.wagers[wagerId].(status := Completed)],
                   balances := Credit(s.balances, winner, 2 * s.wagers[wagerId].amount))
  {
    if wagerId == "" || winner == "" then Step(Validation, s)
    else if !Resolvable(s.wagers, wagerId, user) then Step(NotFound, s)
    else
      var w := s.wagers[wagerId];
      if winner != w.creator && winner != w.receiver then Step(Validation, s)
      else
        Step(Ok, s.(wagers := s.wagers[wagerId := w.(status := Completed)],
                   balances := Credit(s.balances, winner, w.amount * 2)))
  }

  /** The handler run against the shared `Db`: the checks of `Resolve` in the same order, then its writes in place. */
  method ResolveWager(db: Db, user: string, wagerId: string, winner: string) returns (o: Outcome)
    modifies db
    ensures Step(o, db.Snapshot()) == Resolve(old(db.Snapshot()), user, wagerId, winner)
  {
    if wagerId == "" || winner == "" {
      return Validation;
    }
    if !Resolvable(db.wagers, wagerId, user) {
      return NotFound;
    }
    var w := db.wagers[wagerId];
    if winner != w.creator && winner != w.receiver {
      return Validation;
    }
    db.wagers := db.wagers[wagerId := w.(status := Completed)];
    var total := w.amount * 2;
    db.balances := Credit(db.balances, winner, total);
    o := Ok;
  }
}
