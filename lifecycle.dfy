/**
 * The server as one state machine: every request a handler serves is one
 * step on the shared tables. Over any sequence of requests a wager keeps
 * its fields, and its status only moves along the edges the handlers
 * write. Since no handler writes 'active', resolve can never succeed, and
 * since the escrow debits are absent, reject and resolve create points.
 */
module Lifecycle {
  import opened Tables
  import opened WagerRoutes
  import opened Server
  import opened AuthRoutes

  /** One request to a handler that can change the tables, with its generated ids and times. */
  datatype Request =
    | CreateReq(creator: string, receiver: string, description: string, amount: int,
                expiration: int, id: string, saveTime: int)
    | ListReq(caller: string, now: int)
    | PendingReq(caller: string, now: int)
    | RespondReq(caller: string, wagerId: string, action: string)
    | ResolveReq(caller: string, wagerId: string, winner: string)
    | UpdateBalanceReq(caller: string, value: Json)
    | AddFriendReq(caller: string, friendId: string)
    | RegisterReq(email: string, password: string, username: string, hashed: string, newId: string)
    | SeedReq(hash: string)

  /** The tables after serving `req`. */
  function Apply(s: State, req: Request): State {
    match req
    case CreateReq(c, rc, d, a, e, id, t) => CreateWager(s, c, rc, d, a, e, id, t).post
    case ListReq(_, now) => s.(wagers := SweepExpired(s.wagers, now))
    case PendingReq(u, now) => s.(wagers := ExpireLapsed(s.wagers, u, s.balances.Keys, now))
    case RespondReq(u, id, action) => Respond(s, u, id, action).post
    case ResolveReq(u, id, winner) => Resolve(s, u, id, winner).post
    case UpdateBalanceReq(u, v) => UpdateBalance(s, u, v).post
    case AddFriendReq(u, f) => AddFriend(s, u, f).post
    case RegisterReq(e, p, n, h, id) => Register(s, e, p, n, h, id).post
    case SeedReq(h) => Seed(s, h)
  }

  /** The tables after serving `reqs` in order. */
  function Run(s: State, reqs: seq<Request>): State
    decreases |reqs|
  {
    if reqs == [] then s else Run(Apply(s, reqs[0]), reqs[1..])
  }

  /**
   * The statuses a wager in status `a` can reach: 'incoming' goes to
   * 'pending' (accept) or 'rejected' (reject), 'active' to 'completed'
   * (resolve), and every status but 'completed' to 'expired' (a sweep).
   */
  predicate Reachable(a: Status, b: Status) {
    || a == b
    || (a == Incoming && (b == Pending || b == Rejected))
    || (a == Active && b == Completed)
    || (a != Completed && b == Expired)
  }

  /**
   * `t` comes from `s` by handler steps: no wager disappears or changes
   * anything but its status, statuses move only as `Reachable` allows, and
   * every new wager started as 'incoming'.
   */
  predicate Evolves(s: State, t: State) {
    && s.wagers.Keys <= t.wagers.Keys
    && (forall id | id in s.wagers ::
          t.wagers[id].(status := s.wagers[id].status) == s.wagers[id]
          && Reachable(s.wagers[id].status, t.wagers[id].status))
    && (forall id | id in t.wagers && id !in s.wagers :: Reachable(Incoming, t.wagers[id].status))
  }

  lemma ReachableTransitive(a: Status, b: Status, c: Status)
    ensures Reachable(a, b) && Reachable(b, c) ==> Reachable(a, c)
  {
  }

  lemma EvolvesTransitive(s: State, t: State, u: State)
    requires Evolves(s, t) && Evolves(t, u)
    ensures Evolves(s, u)
  {
  }

  /** Every handler step is an evolution of the tables. */
  lemma ApplyEvolves(s: State, req: Request)
    ensures Evolves(s, Apply(s, req))
    ensures forall id | id in Apply(s, req).wagers && id !in s.wagers :: Apply(s, req).wagers[id].status == Incoming
  {
  }

  /** Any sequence of requests is an evolution of the tables. */
  lemma {:induction false} RunEvolves(s: State, reqs: seq<Request>)
    ensures Evolves(s, Run(s, reqs))
    decreases |reqs|
  {
    if reqs == [] {
      assert Run(s, reqs) == s;
    } else {
      var t := Apply(s, reqs[0]);
      ApplyEvolves(s, reqs[0]);
      RunEvolves(t, reqs[1..]);
      EvolvesTransitive(s, t, Run(t, reqs[1..]));
    }
  }

  /** No handler moves a wager out of 'expired' or 'completed', or changes its terms. */
  lemma FinalStatusesAbsorb(s: State, reqs: seq<Request>, id: string)
    requires id in s.wagers && (s.wagers[id].status == Expired || s.wagers[id].status == Completed)
    ensures id in Run(s, reqs).wagers && Run(s, reqs).wagers[id] == s.wagers[id]
  {
    RunEvolves(s, reqs);
  }

  /** A sweep moves a rejected wager to 'expired': 'rejected' is not a final status. */
  lemma RejectedNotFinal()
    ensures
      var w := Wager("a", "b", "run 5k", 10, 5, 1, Rejected);
      var s := State(map[], map["w" := w], []);
      Apply(s, ListReq("a", 6)).wagers["w"].status == Expired
  {
  }

  /* ------------------------------------------------- resolve is unreachable */

  predicate NoActive(m: map<string, Wager>) {
    forall id | id in m :: m[id].status != Active
  }

  /** No request writes 'active'. */
  lemma RunKeepsNoActive(s: State, reqs: seq<Request>)
    requires NoActive(s.wagers)
    ensures NoActive(Run(s, reqs).wagers)
  {
    RunEvolves(s, reqs);
  }

  /**
   * From tables without an 'active' wager (an empty `wagers` table among
   * them), resolve never succeeds, whatever requests came before.
   */
  lemma ResolveNeverSucceeds(s: State, reqs: seq<Request>, user: string, wagerId: string, winner: string)
    requires NoActive(s.wagers)
    ensures Resolve(Run(s, reqs), user, wagerId, winner).outcome != Ok
  {
    RunKeepsNoActive(s, reqs);
  }

  /**
   * The flow create, accept, resolve: the creator's resolve of the accepted
   * wager finds no 'active' row and is not found.
   */
  lemma CreateAcceptResolve(s: State, creator: string, receiver: string, description: string,
                            amount: int, expiration: int, id: string, saveTime: int, winner: string)
    requires CreateWager(s, creator, receiver, description, amount, expiration, id, saveTime).outcome == Ok
    requires id != "" && receiver in s.balances && s.balances[receiver].balance >= amount
    requires winner != ""
    ensures
      var c := CreateWager(s, creator, receiver, description, amount, expiration, id, saveTime).post;
      var a := Respond(c, receiver, id, "accept");
      && a.outcome == Ok
      && a.post.wagers[id].status == Pending
      && Resolve(a.post, creator, id, winner).outcome == NotFound
  {
  }

  /* ------------------------------------------- points are not conserved */

  /** Create and accept leave every balance, hence the total, unchanged. */
  lemma CreateAcceptConserve(s: State, req: Request)
    requires req.CreateReq? || (req.RespondReq? && req.action == "accept")
    ensures Apply(s, req).balances == s.balances
  {
  }

  /** A successful reject adds the wager's amount to the points in circulation. */
  lemma RejectMints(s: State, user: string, wagerId: string)
    requires Respond(s, user, wagerId, "reject").outcome == Ok
    ensures var w := s.wagers[wagerId];
      Total(Respond(s, user, wagerId, "reject").post.balances)
        == Total(s.balances) + (if w.creator in s.balances then w.amount else 0)
  {
    var w := s.wagers[wagerId];
    TotalCredit(s.balances, w.creator, w.amount);
  }

  /** A successful resolve adds twice the amount to the points in circulation. */
  lemma ResolveMints(s: State, user: string, wagerId: string, winner: string)
    requires Resolve(s, user, wagerId, winner).outcome == Ok
    ensures
      Total(Resolve(s, user, wagerId, winner).post.balances)
        == Total(s.balances) + (if winner in s.balances then 2 * s.wagers[wagerId].amount else 0)
  {
    TotalCredit(s.balances, winner, 2 * s.wagers[wagerId].amount);
  }

  /**
   * Create followed by the receiver's reject refunds a debit that was never
   * made: the creator ends `amount` richer than before.
   */
  lemma CreateRejectPays(s: State, creator: string, receiver: string, description: string,
                         amount: int, expiration: int, id: string, saveTime: int)
    requires CreateWager(s, creator, receiver, description, amount, expiration, id, saveTime).outcome == Ok
    requires id != ""
    ensures
      var c := CreateWager(s, creator, receiver, description, amount, expiration, id, saveTime).post;
      var r := Respond(c, receiver, id, "reject");
      && r.outcome == Ok
      && r.post.balances[creator].balance == s.balances[creator].balance + amount
      && Total(r.post.balances) == Total(s.balances) + amount
  {
    var c := CreateWager(s, creator, receiver, description, amount, expiration, id, saveTime).post;
    RejectMints(c, receiver, id);
  }

  /** A negative amount passes create's checks. */
  lemma NegativeAmountCreates()
    ensures
      var s := State(map["a" := Account(0, "a@x.io", "a", "", "h")], map[], []);
      CreateWager(s, "a", "b", "run 5k", -50, 100, "w", 1).outcome == Ok
  {
  }

  /* ----------------------------------------------------------- accounts */

  /** A registered user reads back the starting balance of 1000. */
  lemma RegisterThenBalance(s: State, email: string, password: string, username: string,
                            hashed: string, newId: string)
    requires Register(s, email, password, username, hashed, newId).reply.Registered?
    ensures GetBalance(Register(s, email, password, username, hashed, newId).post, newId) == Balance(1000)
  {
  }

  /** A registered user logs in with the password whose hash was stored. */
  lemma RegisterThenLogin(s: State, email: string, password: string, username: string,
                          hashed: string, newId: string, matches: (string, string) -> bool)
    requires UniqueEmails(s.balances)
    requires Register(s, email, password, username, hashed, newId).reply.Registered?
    requires matches(password, hashed)
    ensures var t := Register(s, email, password, username, hashed, newId).post;
      UniqueEmails(t.balances) && Login(t, email, password, matches) == LoggedIn(newId)
  {
  }
}
