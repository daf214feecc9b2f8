/**
 * The routes of the main server: the balance read, the unguarded balance
 * delta, the non-friends query, add-friend, and the start-up seeding of an
 * empty `balances` table.
 */
module Server {
  import opened Tables

  /* ------------------------------------------------------ GET /api/balance */

  datatype BalanceReply = Balance(value: int) | UserNotFound

  /** GET /api/balance: `SELECT balance FROM balances WHERE id = ?`. */
  function GetBalance(s: State, user: string): (r: BalanceReply)
    ensures r.Balance? <==> user in s.balances
    ensures r.Balance? ==> r.value == s.balances[user].balance
  {
    if user in s.balances then Balance(s.balances[user].balance) else UserNotFound
  }

  /* ---------------------------------------------- POST /api/update-balance */

  /** A value of the parsed request body, with numbers restricted to integers. */
  datatype Json = Missing | Null | Bool(b: bool) | Num(n: int) | Str(s: string) | Composite

  datatype UpdateReply = Updated(echo: int) | InvalidAmount | NoSuchUser

  datatype Update = Update(reply: UpdateReply, post: State)

  /**
   * POST /api/update-balance: a number is added to the caller's balance with
   * no lower bound; the reply echoes the amount, not the new balance.
   */
  function UpdateBalance(s: State, user: string, amount: Json): (r: Update)
    ensures r.post.wagers == s.wagers && r.post.friends == s.friends
    ensures !amount.Num? ==> r.reply == InvalidAmount && r.post == s
    ensures amount.Num? && user !in s.balances ==> r.reply == NoSuchUser && r.post == s
    ensures amount.Num? && user in s.balances ==>
      && r.reply == Updated(amount.n)
      && r.post.balances == s.balances[user := s.balances[user].(balance := s.balances[user].balance + amount.n)]
  {
    match amount
    case Num(n) =>
      if user in s.balances then Update(Updated(n), s.(balances := Credit(s.balances, user, n)))
      else Update(NoSuchUser, s)
    case _ => Update(InvalidAmount, s)
  }

  /** The handler run against the shared `Db`: the checks of `UpdateBalance` in the same order, then its writes in place. */
  method UpdateBalanceIn(db: Db, user: string, amount: Json) returns (reply: UpdateReply)
    modifies db
    ensures Update(reply, db.Snapshot()) == UpdateBalance(old(db.Snapshot()), user, amount)
  {
    if !amount.Num? {
      return InvalidAmount;
    }
    // `this.changes > 0` of the UPDATE
    if user !in db.balances {
      return NoSuchUser;
    }
    db.balances := Credit(db.balances, user, amount.n);
    reply := Updated(amount.n);
  }

  /** A successful update is read back by GET /api/balance as the old balance plus the amount. */
  lemma UpdateThenRead(s: State, user: string, n: int)
    requires user in s.balances
    ensures GetBalance(UpdateBalance(s, user, Num(n)).post, user) == Balance(s.balances[user].balance + n)
  {
  }

  /** Nothing stops a debit below zero. */
  lemma UpdateCanGoNegative()
    ensures
      var s := State(map["u" := Account(10, "u@x.io", "u", "", "h")], map[], []);
      GetBalance(UpdateBalance(s, "u", Num(-30)).post, "u") == Balance(-20)
  {
  }

  /* ------------------------------------------------- GET /api/non-friends */

  /** `SELECT f.friend_id FROM Friends AS f WHERE f.user_id = ?` */
  function FriendIdsOf(friends: seq<Friendship>, user: string): set<string> {
    set f | f in friends && f.user == user :: f.friend
  }

  /** `SELECT f.user_id FROM Friends AS f WHERE f.friend_id = ?` */
  function FriendersOf(friends: seq<Friendship>, user: string): set<string> {
    set f | f in friends && f.friend == user :: f.user
  }

  /** GET /api/non-friends: the accounts other than the caller that are not linked to it either way. */
  function NonFriends(s: State, user: string): (r: set<string>)
    ensures forall v :: v in r <==>
      v in s.balances && v != user && Friendship(user, v) !in s.friends && Friendship(v, user) !in s.friends
  {
    var linked := FriendIdsOf(s.friends, user) + FriendersOf(s.friends, user);
    assert forall v :: v in linked <==> Friendship(user, v) in s.friends || Friendship(v, user) in s.friends by {
      forall v ensures v in linked <==> Friendship(user, v) in s.friends || Friendship(v, user) in s.friends {
        if Friendship(user, v) in s.friends {
          assert v in FriendIdsOf(s.friends, user);
        }
        if Friendship(v, user) in s.friends {
          assert v in FriendersOf(s.friends, user);
        }
      }
    }
    set v | v in s.balances && v != user && v !in linked
  }

  /** Being a non-friend is symmetric between two accounts. */
  lemma NonFriendsSymmetric(s: State, u: string, v: string)
    requires u in s.balances && v in s.balances
    ensures v in NonFriends(s, u) <==> u in NonFriends(s, v)
  {
  }

  /* ------------------------------------------------- POST /api/add-friend */

  datatype FriendReply = FriendAdded | InvalidFriend

  datatype AddFriendStep = AddFriendStep(reply: FriendReply, post: State)

  /** POST /api/add-friend: inserts (caller, friendId) with no self or duplicate check. */
  function AddFriend(s: State, user: string, friendId: string): (r: AddFriendStep)
    ensures r.post.balances == s.balances && r.post.wagers == s.wagers
    ensures r.reply == FriendAdded <==> friendId != ""
    ensures r.reply == FriendAdded ==> r.post.friends == s.friends + [Friendship(user, friendId)]
    ensures r.reply == InvalidFriend ==> r.post == s
  {
    if friendId != "" then AddFriendStep(FriendAdded, s.(friends := s.friends + [Friendship(user, friendId)]))
    else AddFriendStep(InvalidFriend, s)
  }

  /** The handler run against the shared `Db`: the checks of `AddFriend` in the same order, then its writes in place. */
  method AddFriendIn(db: Db, user: string, friendId: string) returns (reply: FriendReply)
    modifies db
    ensures AddFriendStep(reply, db.Snapshot()) == AddFriend(old(db.Snapshot()), user, friendId)
  {
    if friendId == "" {
      return InvalidFriend;
    }
    db.friends := db.friends + [Friendship(user, friendId)];
    reply := FriendAdded;
  }

  /**
   * After `user` adds `friend`, each of the two leaves the other's
   * non-friends, and every other caller's non-friends are unchanged.
   */
  lemma AddFriendLinks(s: State, user: string, friend: string, w: string)
    requires friend != ""
    ensures var t := AddFriend(s, user, friend).post;
      && NonFriends(t, user) == NonFriends(s, user) - {friend}
      && NonFriends(t, friend) == NonFriends(s, friend) - {user}
      && (w != user && w != friend ==> NonFriends(t, w) == NonFriends(s, w))
  {
  }

  /* -------------------------------------------------------------- seeding */

  const Bio1 := "Hi there! I love building apps with React Native and exploring new technologies."
  const Bio2 := "Hello there! I love building apps with React Native and exploring new technologies."

  /** The start-up seeding: two test users, only when `balances` has no rows. */
  function Seed(s: State, hash: string): (r: State)
    ensures r.wagers == s.wagers && r.friends == s.friends
    ensures s.balances != map[] ==> r == s
    ensures s.balances == map[] ==> r.balances.Keys == {"user1", "user2"}
    ensures s.balances == map[] ==>
      r.balances["user1"].balance == 100 && r.balances["user2"].balance == 200
  {
    if |s.balances| == 0 then
      s.(balances := map[
        "user1" := Account(100, "user1@gmail.com", "John Doe", Bio1, hash),
        "user2" := Account(200, "user2@gmail.com", "Jane Smith", Bio2, hash)])
    else s
  }

  /** The handler run against the shared `Db`: the checks of `Seed` in the same order, then its writes in place. */
  method SeedIfEmpty(db: Db, hash: string)
    modifies db
    ensures db.Snapshot() == Seed(old(db.Snapshot()), hash)
  {
    if |db.balances| == 0 {
      db.balances := db.balances["user1" := Account(100, "user1@gmail.com", "John Doe", Bio1, hash)];
      db.balances := db.balances["user2" := Account(200, "user2@gmail.com", "Jane Smith", Bio2, hash)];
    }
  }

  /** Seeding twice is seeding once. */
  lemma SeedIdempotent(s: State, hash: string)
    ensures Seed(Seed(s, hash), hash) == Seed(s, hash)
  {
  }
}
