/**
 * The SQLite tables shared by every route of the server: `balances` (one row
 * per user account, holding its point balance), `wagers` and `Friends`.
 * Each route handler is one atomic step on these tables; `State` is their
 * value and `Db` is the object the handlers update in place.
 */
module Tables {

  /** The TEXT values the routes write to or test in `wagers.status`. */
  datatype Status = Incoming | Pending | Active | Approved | Rejected | Expired | Completed

  /** A row of `wagers`, without its key `wager_id`. */
  datatype Wager = Wager(
    creator: string,
    receiver: string,
    description: string,
    amount: int,
    expiration: int,
    saveTime: int,
    status: Status)

  /** A row of `balances`, without its key `id`. */
  datatype Account = Account(
    balance: int,
    email: string,
    username: string,
    bio: string,
    password: string)

  /** A row of `Friends`. */
  datatype Friendship = Friendship(user: string, friend: string)

  datatype State = State(
    balances: map<string, Account>,
    wagers: map<string, Wager>,
    friends: seq<Friendship>)

  /** The database handle the route handlers share. */
  class Db {
    var balances: map<string, Account>
    var wagers: map<string, Wager>
    var friends: seq<Friendship>

    constructor (s: State)
      ensures Snapshot() == s
    {
      balances, wagers, friends := s.balances, s.wagers, s.friends;
    }

    function Snapshot(): State
      reads this
    {
      State(balances, wagers, friends)
    }
  }

  /**
   * `UPDATE balances SET balance = balance + delta WHERE id = ?`: an
   * unknown id matches no row and changes nothing.
   */
  function Credit(m: map<string, Account>, id: string, delta: int): (r: map<string, Account>)
    ensures r.Keys == m.Keys
    ensures id in m ==> r[id] == m[id].(balance := m[id].balance + delta)
    ensures forall k | k in m && k != id :: r[k] == m[k]
  {
    if id in m then m[id := m[id].(balance := m[id].balance + delta)] else m
  }

  /** The sum of all balances: the number of points in circulation. */
  ghost function Total(m: map<string, Account>): int
    decreases |m|
  {
    if m == map[] then 0
    else
      var k :| k in m;
      m[k].balance + Total(m - {k})
  }

  /** Total can be computed by taking out any key first. */
  lemma {:induction false} TotalWithout(m: map<string, Account>, k: string)
    requires k in m
    ensures Total(m) == m[k].balance + Total(m - {k})
    decreases |m|
  {
    var j :| j in m && Total(m) == m[j].balance + Total(m - {j});
    if j != k {
      var mj := m - {j};
      var mk := m - {k};
      assert |mj| == |m| - 1 && |mk| == |m| - 1;
      TotalWithout(mj, k);
      TotalWithout(mk, j);
      assert mj - {k} == mk - {j};
    }
  }

  /** Crediting an existing account adds exactly `delta` to the total. */
  lemma TotalCredit(m: map<string, Account>, id: string, delta: int)
    ensures Total(Credit(m, id, delta)) == Total(m) + (if id in m then delta else 0)
  {
    if id in m {
      var r := Credit(m, id, delta);
      TotalWithout(m, id);
      TotalWithout(r, id);
      assert r - {id} == m - {id};
    }
  }
}
