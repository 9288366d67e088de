/**
 * The ranking shown by the leaderboard page: the users sorted by their total
 * contributions, highest first, each shown on a card with its place in the list
 * as its rank, and the top three places marked with an icon.
 */
module Leaderboard {
  import opened Wrappers

  // ---------------------------------------------------------------------------
  // Data
  // ---------------------------------------------------------------------------

  /** The time-period filter buttons. */
  datatype TimePeriod = Week | Month | AllTime

  /** The category tabs. */
  datatype Category = TopGivers | Giveaways | Requestors | Requests | Trending

  /** A user's statistics; `totalContributions` is None when it is undefined or null. */
  datatype Stats = Stats(totalContributions: Option<int>, givenways: int, badges: int)

  /** A leaderboard user; `stats` is None when the record carries no statistics. */
  datatype User = User(
    id: string,
    name: string,
    username: string,
    avatar: string,
    badge: Option<string>,
    stats: Option<Stats>)

  /** The page's state: the two selectors and the (never updated) user list. */
  datatype PageState = PageState(timePeriod: TimePeriod, category: Category, users: seq<User>)

  /** The mock user list the page starts with: four users, all with zero contributions. */
  const MockUsers: seq<User> := [
    User("1", "Alex Chan", "@alexchan", "/avatars/alex.jpg", Some("Verified"), Some(Stats(Some(0), 2, 2))),
    User("2", "Sarah Johnson", "@sarahj", "/avatars/sarah.jpg", None, Some(Stats(Some(0), 0, 2))),
    User("3", "Marcus Williams", "@marcusw", "/avatars/marcus.jpg", Some("Verified"), Some(Stats(Some(0), 0, 3))),
    User("4", "Emma Rodriguez", "@emmar", "/avatars/emma.jpg", None, Some(Stats(Some(0), 0, 1)))
  ]

  /** The state on first render: all-time, top givers, the mock users. */
  const InitialPage: PageState := PageState(AllTime, TopGivers, MockUsers)

  // ---------------------------------------------------------------------------
  // The sort key and the sort
  // ---------------------------------------------------------------------------

  /** The sort key `stats?.totalContributions || 0`: missing statistics count as zero. */
  function Contributions(u: User): (total: int)
    ensures u.stats.None? ==> total == 0
    ensures u.stats.Some? && u.stats.value.totalContributions.None? ==> total == 0
  {
    match u.stats
    case None => 0
    case Some(s) => s.totalContributions.GetOr(0)
  }

  /** Every user has at least as many contributions as every user after it. */
  predicate NonIncreasing(s: seq<User>) {
    forall i, j :: 0 <= i < j < |s| ==> Contributions(s[i]) >= Contributions(s[j])
  }

  /** The users of `s` whose key is `total`, in the order `s` has them. */
  function WithTotal(s: seq<User>, total: int): (r: seq<User>)
    ensures forall u :: u in r <==> u in s && Contributions(u) == total
  {
    if s == [] then []
    else (if Contributions(s[0]) == total then [s[0]] else []) + WithTotal(s[1..], total)
  }

  /**
   * One step of a stable descending sort: `u`, which came before every user of
   * `sorted` in the input, goes in front of the first user whose key is not
   * larger than its own (the comparator `b - a` orders ties by input position).
   */
  function Insert(u: User, sorted: seq<User>): (r: seq<User>)
    ensures multiset(r) == multiset(sorted) + multiset{u}
    ensures forall x :: x in r ==> x == u || x in sorted
    ensures NonIncreasing(sorted) ==> NonIncreasing(r)
  {
    if sorted == [] || Contributions(sorted[0]) <= Contributions(u) then
      HeadBoundsAll(sorted);
      PrependLargest(u, sorted);
      [u] + sorted
    else
      assert sorted == [sorted[0]] + sorted[1..];
      var rest := Insert(u, sorted[1..]);
      HeadBoundsAll(sorted);
      PrependLargest(sorted[0], rest);
      [sorted[0]] + rest
  }

  /** A user whose key is at least every key of a non-increasing list can go in front of it. */
  lemma PrependLargest(u: User, s: seq<User>)
    ensures NonIncreasing(s) && (forall x :: x in s ==> Contributions(x) <= Contributions(u))
        ==> NonIncreasing([u] + s)
  {
    if NonIncreasing(s) && forall x :: x in s ==> Contributions(x) <= Contributions(u) {
      forall i, j | 0 <= i < j < |[u] + s|
        ensures Contributions(([u] + s)[i]) >= Contributions(([u] + s)[j])
      {
        assert ([u] + s)[j] == s[j - 1];
        if i > 0 {
          assert ([u] + s)[i] == s[i - 1];
        } else {
          assert s[j - 1] in s;
        }
      }
    }
  }

  /**
   * `[...users].sort((a, b) => key(b) - key(a))`: the copy of the users sorted by
   * total contributions, highest first, with ties kept in input order
   * (Array.prototype.sort is stable).
   */
  function RankedUsers(users: seq<User>): (ranked: seq<User>)
    ensures multiset(ranked) == multiset(users)
    ensures NonIncreasing(ranked)
  {
    if users == [] then []
    else
      assert users == [users[0]] + users[1..];
      Insert(users[0], RankedUsers(users[1..]))
  }

  // ---------------------------------------------------------------------------
  // Stability and uniqueness of the sort
  // ---------------------------------------------------------------------------

  lemma {:induction false} WithTotalOfConcat(a: seq<User>, b: seq<User>, total: int)
    ensures WithTotal(a + b, total) == WithTotal(a, total) + WithTotal(b, total)
  {
    if a == [] {
      assert a + b == b;
    } else {
      assert (a + b)[0] == a[0];
      assert (a + b)[1..] == a[1..] + b;
      WithTotalOfConcat(a[1..], b, total);
    }
  }

  /** Inserting `u` puts it in front of every user with the same key, and moves no one else among them. */
  lemma {:induction false} InsertKeepsTies(u: User, sorted: seq<User>, total: int)
    ensures WithTotal(Insert(u, sorted), total)
         == (if Contributions(u) == total then [u] else []) + WithTotal(sorted, total)
  {
    if sorted == [] || Contributions(sorted[0]) <= Contributions(u) {
      WithTotalOfConcat([u], sorted, total);
    } else {
      WithTotalOfConcat([sorted[0]], Insert(u, sorted[1..]), total);
      InsertKeepsTies(u, sorted[1..], total);
    }
  }

  /** The sort is stable: users with equal totals keep their relative order. */
  lemma {:induction false} RankedUsersIsStable(users: seq<User>, total: int)
    ensures WithTotal(RankedUsers(users), total) == WithTotal(users, total)
  {
    if users != [] {
      InsertKeepsTies(users[0], RankedUsers(users[1..]), total);
      RankedUsersIsStable(users[1..], total);
    }
  }

  /** In a non-increasing list the first user has the largest key. */
  lemma HeadIsLargest(s: seq<User>, u: User)
    requires NonIncreasing(s) && u in s
    ensures Contributions(s[0]) >= Contributions(u)
  {
    var j :| 0 <= j < |s| && s[j] == u;
    assert j == 0 || Contributions(s[0]) >= Contributions(s[j]);
  }

  /** In a non-empty non-increasing list no key exceeds the first one. */
  lemma HeadBoundsAll(s: seq<User>)
    ensures NonIncreasing(s) && s != [] ==> forall x :: x in s ==> Contributions(x) <= Contributions(s[0])
  {
    if NonIncreasing(s) && s != [] {
      forall x | x in s ensures Contributions(x) <= Contributions(s[0]) {
        HeadIsLargest(s, x);
      }
    }
  }

  /**
   * Two non-increasing lists that agree on the order of every group of equal
   * totals are the same list.
   */
  lemma {:induction false} StableArrangementIsUnique(a: seq<User>, b: seq<User>)
    requires NonIncreasing(a) && NonIncreasing(b)
    requires forall total :: WithTotal(a, total) == WithTotal(b, total)
    ensures a == b
  {
    if a != [] {
      assert a[0] in WithTotal(a, Contributions(a[0]));
      assert a[0] in b;
    }
    if b != [] {
      assert b[0] in WithTotal(b, Contributions(b[0]));
      assert b[0] in a;
    }
    if a != [] {
      HeadIsLargest(b, a[0]);
      HeadIsLargest(a, b[0]);
      var top := Contributions(a[0]);
      assert WithTotal(a, top) == [a[0]] + WithTotal(a[1..], top);
      assert WithTotal(b, top) == [b[0]] + WithTotal(b[1..], top);
      assert a[0] == WithTotal(a, top)[0] == b[0];
      forall total
        ensures WithTotal(a[1..], total) == WithTotal(b[1..], total)
      {
        if total == top {
          assert WithTotal(a[1..], top) == WithTotal(a, top)[1..];
          assert WithTotal(b[1..], top) == WithTotal(b, top)[1..];
        } else {
          assert WithTotal(a[1..], total) == WithTotal(a, total);
          assert WithTotal(b[1..], total) == WithTotal(b, total);
        }
      }
      StableArrangementIsUnique(a[1..], b[1..]);
      assert a == [a[0]] + a[1..];
      assert b == [b[0]] + b[1..];
    }
  }

  /**
   * The ranking is THE stable descending order of the users: any list sorted by
   * total, highest first, that keeps every group of equal totals in input order
   * is exactly `RankedUsers(users)`.
   */
  lemma RankedUsersIsTheStableSort(users: seq<User>, arranged: seq<User>)
    requires NonIncreasing(arranged)
    requires forall total :: WithTotal(arranged, total) == WithTotal(users, total)
    ensures arranged == RankedUsers(users)
  {
    forall total ensures WithTotal(arranged, total) == WithTotal(RankedUsers(users), total) {
      RankedUsersIsStable(users, total);
    }
    StableArrangementIsUnique(arranged, RankedUsers(users));
  }

  /** A list already sorted by total, highest first, is left as it is. */
  lemma SortedUsersKeepTheirOrder(users: seq<User>)
    requires NonIncreasing(users)
    ensures RankedUsers(users) == users
  {
    RankedUsersIsTheStableSort(users, users);
  }

  /** The mock users, all at zero, stay in id order 1, 2, 3, 4. */
  lemma MockRankingKeepsIdOrder()
    ensures RankedUsers(MockUsers) == MockUsers
    ensures |MockUsers| == 4
    ensures RankedUsers(MockUsers)[0].id == "1" && RankedUsers(MockUsers)[1].id == "2"
    ensures RankedUsers(MockUsers)[2].id == "3" && RankedUsers(MockUsers)[3].id == "4"
  {
    assert forall i :: 0 <= i < |MockUsers| ==> Contributions(MockUsers[i]) == 0;
    SortedUsersKeepTheirOrder(MockUsers);
  }

  // ---------------------------------------------------------------------------
  // Ranks
  // ---------------------------------------------------------------------------

  /** The props of one `RankCard`. */
  datatype RankCard = RankCard(user: User, rank: int)

  /** `rankedUsers.map((user, index) => <RankCard user={user} rank={index + 1} />)` */
  function RankCards(users: seq<User>): (cards: seq<RankCard>)
    ensures |cards| == |users|
    ensures CardUsers(cards) == RankedUsers(users)
    ensures forall i :: 0 <= i < |cards| ==> cards[i].rank == i + 1
    ensures forall i, j :: 0 <= i < j < |cards| ==>
              Contributions(cards[i].user) >= Contributions(cards[j].user)
  {
    var ranked := RankedUsers(users);
    assert |ranked| == |multiset(ranked)| == |users|;
    var cards := seq(|ranked|, i requires 0 <= i < |ranked| => RankCard(ranked[i], i + 1));
    assert CardUsers(cards) == ranked;
    cards
  }

  /** The users shown on a list of cards, in order. */
  function CardUsers(cards: seq<RankCard>): (us: seq<User>)
    ensures |us| == |cards|
  {
    seq(|cards|, i requires 0 <= i < |cards| => cards[i].user)
  }

  /** The ranks shown on a list of cards, in order. */
  function Ranks(cards: seq<RankCard>): (rs: seq<int>)
    ensures |rs| == |cards|
  {
    seq(|cards|, i requires 0 <= i < |cards| => cards[i].rank)
  }

  /**
   * Every user gets exactly one card, and the ranks are exactly 1..n, each
   * used once, so no rank is shared, not even by users with equal totals.
   */
  lemma RanksAreOneToN(users: seq<User>)
    ensures multiset(CardUsers(RankCards(users))) == multiset(users)
    ensures forall r :: r in Ranks(RankCards(users)) <==> 1 <= r <= |users|
    ensures forall i, j :: 0 <= i < j < |users| ==> Ranks(RankCards(users))[i] < Ranks(RankCards(users))[j]
  {
    var cards := RankCards(users);
    forall r | 1 <= r <= |users| ensures r in Ranks(cards) {
      assert Ranks(cards)[r - 1] == r;
    }
  }

  /** The rank of each card is its place in the sorted list: a larger total never has a worse rank. */
  lemma HigherTotalHasBetterRank(users: seq<User>, i: int, j: int)
    requires 0 <= i < |users| && 0 <= j < |users|
    requires Contributions(RankCards(users)[i].user) > Contributions(RankCards(users)[j].user)
    ensures RankCards(users)[i].rank < RankCards(users)[j].rank
  {
  }

  // ---------------------------------------------------------------------------
  // The page
  // ---------------------------------------------------------------------------

  /** The cards the page shows in a given state. */
  function PageCards(page: PageState): (cards: seq<RankCard>)
    ensures |cards| == |page.users|
    ensures CardUsers(cards) == RankedUsers(page.users)
    ensures forall i :: 0 <= i < |cards| ==> cards[i].rank == i + 1
  {
    RankCards(page.users)
  }

  /**
   * On first render the page shows the mock users in id order 1, 2, 3, 4 with
   * ranks 1 to 4; user "1" gets the trophy and user "4" the `#4` label.
   */
  lemma InitialPageCards()
    ensures |PageCards(InitialPage)| == 4
    ensures forall i :: 0 <= i < 4 ==> PageCards(InitialPage)[i] == RankCard(MockUsers[i], i + 1)
    ensures PageCards(InitialPage)[0].user.id == "1"
    ensures RankSlotFor(PageCards(InitialPage)[0].rank) == IconSlot(Some(Trophy))
    ensures PageCards(InitialPage)[3].user.id == "4"
    ensures RankSlotFor(PageCards(InitialPage)[3].rank) == LabelSlot(4, DefaultBadge)
  {
    var cards := PageCards(InitialPage);
    MockRankingKeepsIdOrder();
    forall i | 0 <= i < 4 ensures cards[i] == RankCard(MockUsers[i], i + 1) {
      assert cards[i].user == CardUsers(cards)[i];
    }
  }

  /** Neither the time period nor the category reaches the ranking. */
  lemma SelectorsDoNotChangeRanking(page: PageState, period: TimePeriod, category: Category)
    ensures PageCards(page.(timePeriod := period, category := category)) == PageCards(page)
  {
  }

  // ---------------------------------------------------------------------------
  // Rank icons and badges
  // ---------------------------------------------------------------------------

  /** The icons `getRankIcon` can return. */
  datatype RankIcon = Trophy | Medal | Award

  /** `getRankIcon`: trophy, medal and award for ranks 1, 2 and 3; no icon otherwise. */
  function RankIconFor(rank: int): (icon: Option<RankIcon>)
    ensures icon.Some? <==> 1 <= rank <= 3
  {
    if rank == 1 then Some(Trophy)
    else if rank == 2 then Some(Medal)
    else if rank == 3 then Some(Award)
    else None
  }

  const GoldBadge := "bg-yellow-500/20 text-yellow-500"
  const SilverBadge := "bg-gray-500/20 text-gray-400"
  const BronzeBadge := "bg-orange-700/20 text-orange-600"
  const DefaultBadge := "bg-gray-700/50 text-gray-400"

  /** `getRankBadgeColor`: its own style for each of ranks 1, 2 and 3, the default for every other rank. */
  function RankBadgeColor(rank: int): (style: string)
    ensures style == DefaultBadge <==> !(1 <= rank <= 3)
  {
    if rank == 1 then GoldBadge
    else if rank == 2 then SilverBadge
    else if rank == 3 then BronzeBadge
    else DefaultBadge
  }

  /** Each of the three podium ranks has its own icon and its own badge style. */
  lemma PodiumMarksAreDistinct(r1: int, r2: int)
    requires 1 <= r1 <= 3 && 1 <= r2 <= 3 && r1 != r2
    ensures RankIconFor(r1) != RankIconFor(r2)
    ensures RankBadgeColor(r1) != RankBadgeColor(r2)
  {
  }

  /** What the rank column of a card shows. */
  datatype RankSlot =
    | IconSlot(icon: Option<RankIcon>)     // `getRankIcon()`, possibly null
    | LabelSlot(number: int, style: string) // `#{rank}` in a badge styled by `getRankBadgeColor()`

  /** The rank column: the icon for ranks up to 3, the `#rank` label otherwise. */
  function RankSlotFor(rank: int): (slot: RankSlot)
    ensures slot.IconSlot? <==> rank <= 3
    ensures slot.IconSlot? ==> slot.icon == RankIconFor(rank)
    ensures slot.LabelSlot? ==> slot.number == rank && slot.style == DefaultBadge
  {
    if rank <= 3 then IconSlot(RankIconFor(rank))
    else LabelSlot(rank, RankBadgeColor(rank))
  }

  /**
   * On the page, the first three cards show trophy, medal and award, and every
   * later card shows `#rank` in the default badge style.
   */
  lemma CardSlots(users: seq<User>, i: int)
    requires 0 <= i < |users|
    ensures i == 0 ==> RankSlotFor(RankCards(users)[i].rank) == IconSlot(Some(Trophy))
    ensures i == 1 ==> RankSlotFor(RankCards(users)[i].rank) == IconSlot(Some(Medal))
    ensures i == 2 ==> RankSlotFor(RankCards(users)[i].rank) == IconSlot(Some(Award))
    ensures i >= 3 ==> RankSlotFor(RankCards(users)[i].rank) == LabelSlot(i + 1, DefaultBadge)
  {
  }
}
