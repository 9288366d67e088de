# Leaderboard ranking and media carousel: a Dafny model

This project models the two pieces of logic in the Geev web app's front end.

- **The leaderboard ranking** (`app/leaderboard/page.tsx`). The page copies its user list and
  sorts the copy by `stats.totalContributions`, highest first. A missing value counts as 0. Each
  user is shown on a `RankCard` whose rank is its position in the sorted list plus one. Ranks 1, 2
  and 3 show a trophy, medal and award icon. Every later rank shows a `#rank` label in a badge.
- **The media carousel's index** (`components/media-carousel.tsx`). A single state cell,
  `currentIndex`, starts at 0. It moves with wrap-around by the previous/next buttons and by the
  left/right arrow keys. Thumbnail and dot clicks set it directly. It selects the image on display.

Module `Leaderboard` (`leaderboard.dfy`) is pure, like the page's code. The sort is a function on
sequences. JavaScript's `Array.prototype.sort` is stable, and `RankedUsers` models it as a
stable insertion sort. `RankedUsersIsTheStableSort` then shows that the result does not depend on
that choice of algorithm. Any list that is sorted highest first and keeps every group of equal
totals in input order is the same list. Sequences are values, so the input list cannot change.
This is what the source gets from sorting a spread copy (`[...users]`).

Module `MediaCarousel` (`media_carousel.dfy`) is imperative, like the component. The class
`Carousel` holds the fixed `images` list and the mutable `currentIndex`. Its methods are the
component's handlers. `Valid()` is the invariant that keeps `images[currentIndex]` defined. The
wrap-around arithmetic is in the pure functions `Previous` and `Next`. Their contracts equate them
with Euclidean remainders, and the full-cycle lemma is proved from that.

`Wrappers` (`wrappers.dfy`) holds the `Option` type. It stands for JavaScript's undefined/null.

Only what the code does is modelled. A leaderboard might be expected to rank by time window and
category, to give tied users a shared rank, and to paginate. This code does none of these.
`timePeriod` and `category` are state that never reaches the ranking
(`SelectorsDoNotChangeRanking`). Tied users get consecutive, distinct ranks (`RanksAreOneToN`).

Two observations follow from the contracts:
- `getRankBadgeColor`'s styles for ranks 1, 2 and 3 are never displayed. The badge is only
  rendered for ranks above 3, and all of those get the default style (`RankSlotFor`, `CardSlots`).
- For a rank of 0 or below, the rank column would show nothing, because `rank <= 3` selects the
  icon and `getRankIcon` returns null (`RankSlotFor`, `RankIconFor`). Ranks on the page start at 1,
  so this cannot happen.

## Model

| member | source | states |
|---|---|---|
| `Leaderboard.Contributions` | app/leaderboard/page.tsx:97 | A user with no `stats`, or with no `totalContributions`, has sort key 0. |
| `Leaderboard.Insert` | app/leaderboard/page.tsx:96-98 | One step of the stable sort. The result holds the same users plus the inserted one, and stays ordered highest first. |
| `Leaderboard.RankedUsers` | app/leaderboard/page.tsx:96-98 | The ranking is a permutation of the users (the same multiset), ordered non-increasingly by total contributions. |
| `Leaderboard.RankedUsersIsStable` | app/leaderboard/page.tsx:96-98 | For every total, the users with that total appear in the ranking in the same relative order as in the input. |
| `Leaderboard.StableArrangementIsUnique` | app/leaderboard/page.tsx:96-98 | Two lists ordered highest first that agree on the order within every group of equal totals are equal. |
| `Leaderboard.RankedUsersIsTheStableSort` | app/leaderboard/page.tsx:96-98 | Any list ordered highest first that keeps ties in input order is exactly the ranking. The ranking is determined by the comparator and stability alone. |
| `Leaderboard.SortedUsersKeepTheirOrder` | app/leaderboard/page.tsx:96-98 | A user list already ordered highest first is returned unchanged. |
| `Leaderboard.MockRankingKeepsIdOrder` | app/leaderboard/page.tsx:23-72 | The four mock users all have total 0, so the ranking keeps them in id order 1, 2, 3, 4. |
| `Leaderboard.RankCards` | app/leaderboard/page.tsx:287-291 | There is one card per user. Card i shows the i-th user of the ranking and has rank i + 1. Every card's user has at least the total of every later card's user. |
| `Leaderboard.RanksAreOneToN` | app/leaderboard/page.tsx:287-291 | Every user gets exactly one card. The ranks shown are exactly 1..n and strictly increasing, so users with equal totals never share a rank. |
| `Leaderboard.HigherTotalHasBetterRank` | app/leaderboard/page.tsx:287-291 | A user with a strictly larger total has a strictly smaller (better) rank. |
| `Leaderboard.PageCards` | app/leaderboard/page.tsx:91-98 | In every page state, the page shows one card per user. Card i shows the i-th user of the ranking of the page's users and has rank i + 1. |
| `Leaderboard.InitialPageCards` | app/leaderboard/page.tsx:23-98 | On first render the cards are the mock users in id order with ranks 1 to 4. User "1" gets the trophy and user "4" the `#4` label in the default style. |
| `Leaderboard.SelectorsDoNotChangeRanking` | app/leaderboard/page.tsx:92-98 | Changing the time period or the category leaves the cards unchanged. |
| `Leaderboard.RankIconFor` | app/leaderboard/page.tsx:362-373 | `getRankIcon` returns an icon exactly for ranks 1 to 3, and null for every other rank. |
| `Leaderboard.RankBadgeColor` | app/leaderboard/page.tsx:375-386 | `getRankBadgeColor` returns the default style exactly for ranks outside 1 to 3. |
| `Leaderboard.PodiumMarksAreDistinct` | app/leaderboard/page.tsx:362-386 | Ranks 1, 2 and 3 each get a different icon and a different badge style. |
| `Leaderboard.RankSlotFor` | app/leaderboard/page.tsx:392-398 | The rank column shows `getRankIcon`'s result exactly when rank <= 3, so it is empty for a rank of 0 or below. Otherwise it shows the `#rank` label, always in the default badge style. |
| `Leaderboard.CardSlots` | app/leaderboard/page.tsx:392-398 | On the page, the first three cards show trophy, medal and award. Card i from the fourth on shows label `#(i+1)` in the default style. |
| `MediaCarousel.Previous` | components/media-carousel.tsx:40-42 | For an index in [0, n), the result stays in [0, n) and equals (i - 1) mod n. |
| `MediaCarousel.Next` | components/media-carousel.tsx:44-46 | For an index in [0, n), the result stays in [0, n) and equals (i + 1) mod n. |
| `MediaCarousel.PreviousUndoesNext` | components/media-carousel.tsx:40-46 | previous(next(i)) = i for every in-range index. |
| `MediaCarousel.NextUndoesPrevious` | components/media-carousel.tsx:40-46 | next(previous(i)) = i for every in-range index. |
| `MediaCarousel.SingleImageStaysPut` | components/media-carousel.tsx:40-46 | With one image, both previous and next leave the index at 0. |
| `MediaCarousel.AdvanceIsModular` | components/media-carousel.tsx:44-46 | Pressing next k times from index i gives (i + k) mod n. |
| `MediaCarousel.RetreatIsModular` | components/media-carousel.tsx:40-42 | Pressing previous k times from index i gives (i - k) mod n. |
| `MediaCarousel.FullCycle` | components/media-carousel.tsx:40-46 | Pressing next n times, or previous n times, returns to the starting index. |
| `MediaCarousel.Carousel.constructor` | components/media-carousel.tsx:33-34 | The index starts at 0. An absent `images` prop behaves as an empty list. The invariant holds. |
| `MediaCarousel.Carousel.CurrentImage` | components/media-carousel.tsx:36-61 | Nothing is shown (null) exactly when the list is absent or empty. Otherwise the image shown is `images[currentIndex]`, an element of the list. |
| `MediaCarousel.Carousel.ThumbnailTargets` | components/media-carousel.tsx:109-114 | Thumbnails appear only for more than one image. Thumbnail k passes index k, which is always in range. |
| `MediaCarousel.Carousel.DotTargets` | components/media-carousel.tsx:137-142 | Dots appear only for 2 to 5 images. Dot k passes index k, which is always in range. |
| `MediaCarousel.Carousel.GoToPrevious` | components/media-carousel.tsx:40-42 | The new index is `Previous(old index, n)`. The invariant is preserved. |
| `MediaCarousel.Carousel.GoToNext` | components/media-carousel.tsx:44-46 | The new index is `Next(old index, n)`. The invariant is preserved. |
| `MediaCarousel.Carousel.GoToIndex` | components/media-carousel.tsx:48-50 | The index becomes exactly the argument, with no clamping. The invariant holds afterwards if and only if the argument is in range. |
| `MediaCarousel.Carousel.HandleKeyDown` | components/media-carousel.tsx:53-59 | `ArrowLeft` acts as previous and `ArrowRight` as next. Any other key leaves the index unchanged. The invariant is preserved. |
| `MediaCarousel.Carousel.ClickThumbnail` | components/media-carousel.tsx:111-114 | Clicking thumbnail k selects image k and keeps the invariant. |
| `MediaCarousel.Carousel.ClickDot` | components/media-carousel.tsx:139-142 | Clicking dot k selects image k and keeps the invariant. |
| `MediaCarousel.Session` | components/media-carousel.tsx:33-61 | After mounting with at least two images, then next, previous, a thumbnail click and a key press, the image shown is an element of the list. |

## Left out

- Rendering: JSX, Tailwind classes other than the rank badge styles, `NavItem`, `StatRow`, `CategoryTab`, the sidebar and header, avatars, and the carousel's `<img>` elements, counter and button markup. These are presentation only.
- The effect that sets `document.body` and `document.documentElement` styles (app/leaderboard/page.tsx:101-111). This is DOM I/O.
- The card's statistics columns (`user.stats.givenways`, `user.stats.badges`). These are display only. Unlike the sort key, they read `stats` without optional chaining, so a user without `stats` makes `RankCard` throw a TypeError (app/leaderboard/page.tsx:426). The model still builds a card for such a user, because `User.stats` is an `Option` and the columns are not modelled.
- React's hook mechanics. `useState` and re-render timing are not modelled. `currentIndex` is a plain field updated synchronously, and `users` is a constant list.
- A change of the `images` prop after mounting. The model fixes `images` for the carousel's lifetime. The source never re-clamps `currentIndex`, so a shrinking list could leave it out of range.
- Floating-point numbers. Totals and indices are unbounded integers. A NaN total, which JavaScript's `|| 0` would also turn into 0, and the comparator's behaviour on infinities are not modelled.
- Keyboard events are reduced to their `key` string.
- Contributions: states only the missing-value cases. For a present total, the key is that total, which is what the function's body computes.
- The files app/wallet/page.tsx, app/login/layout.tsx and app/feed/layout.tsx only compose components or export metadata. They are not part of this model.
