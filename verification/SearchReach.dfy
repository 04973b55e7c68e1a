/** What the search cannot miss: three cards that pass as a pure straight. It follows when the search finds
    no combination at all. */
module SearchReach {
  import opened CardDealer
  import opened GroupRules
  import opened Choices
  import opened GroupSearch
  import opened GroupFacts
  import opened HandFacts

  // ----- membership in what is listed

  lemma {:induction false} HasFlatMap<T, U>(list: seq<T>, f: T -> seq<U>, k: nat, x: U)
    requires k < |list| && x in f(list[k])
    ensures x in FlatMap(list, f)
  {
    if k < |list| - 1 {
      HasFlatMap(list[..|list| - 1], f, k, x);
    }
  }

  lemma HasChoice<T>(arr: seq<T>, v: Mask)
    requires |v| == |arr|
    ensures Select(arr, v) in Choose(arr, Count(v))
  {
    hide Select, Masks;
    var k := MasksComplete(v);
    MasksSize(|arr|, Count(v));
    assert Choose(arr, Count(v))[k] == Select(arr, v);
  }

  lemma {:induction false} HasCombine(cards: seq<Card>, hi: nat, c: seq<Card>)
    requires c in Choose(cards, |c|) && 1 <= |c| <= hi
    ensures c in Combines(cards, hi)
  {
    hide Choose;
    if |c| < hi {
      HasCombine(cards, hi - 1, c);
    }
  }

  lemma PartOfInit(init: multiset<Card>, last: Card, m: multiset<Card>)
    requires m <= init + multiset{last}
    ensures last in m ==> m - multiset{last} <= init && m - multiset{last} + multiset{last} == m
    ensures last !in m ==> m <= init
  {
  }

  /** Some choice takes just these cards. */
  lemma {:induction false} ChoiceOf(arr: seq<Card>, m: multiset<Card>) returns (v: Mask)
    requires m <= multiset(arr)
    ensures |v| == |arr| && multiset(Select(arr, v)) == m
  {
    if arr == [] {
      v := [];
    } else {
      var init, last := arr[..|arr| - 1], arr[|arr| - 1];
      assert arr == init + [last];
      assert multiset(arr) == multiset(init) + multiset{last};
      var take := last in m;
      var part := if take then m - multiset{last} else m;
      PartOfInit(multiset(init), last, m);
      var w := ChoiceOf(init, part);
      v := w + [take];
      assert v[..|v| - 1] == w && Select(arr, v) == Select(init, w) + (if take then [last] else []);
    }
  }

  lemma FirstIn<T>(s: seq<T>)
    ensures s != [] ==> s[0] in s
  {
  }

  /** Rising cards are a choice of any rising cards that hold them. */
  lemma {:induction false} RisingChoice(arr: seq<Card>, h: seq<Card>, jokerPoint: int) returns (v: Mask)
    requires Rising(arr, jokerPoint) && Rising(h, jokerPoint) && forall c :: c in h ==> c in arr
    ensures |v| == |arr| && Select(arr, v) == h
  {
    if arr == [] {
      FirstIn(h);
      v := [];
    } else {
      hide Rising;
      var init, last := arr[..|arr| - 1], arr[|arr| - 1];
      assert arr == init + [last];
      RisingInit(init, last, jokerPoint);
      if h != [] && h[|h| - 1] == last {
        var front := h[..|h| - 1];
        assert h == front + [last];
        RisingInit(front, last, jokerPoint);
        forall c | c in front
          ensures c in init
        {
          assert c in h && c != last;
        }
        var w := RisingChoice(init, front, jokerPoint);
        v := w + [true];
        assert v[..|v| - 1] == w;
      } else {
        NotLast(init, last, h, jokerPoint);
        var w := RisingChoice(init, h, jokerPoint);
        v := w + [false];
        assert v[..|v| - 1] == w && h + [] == h;
      }
    }
  }

  lemma NotLast(init: seq<Card>, last: Card, h: seq<Card>, jokerPoint: int)
    requires Rising(init + [last], jokerPoint) && Rising(h, jokerPoint)
    requires (forall c :: c in h ==> c in init + [last]) && (h != [] ==> h[|h| - 1] != last)
    ensures forall c :: c in h ==> c in init
  {
    RisingInit(init, last, jokerPoint);
    forall c | c in h
      ensures c in init
    {
      var i :| 0 <= i < |h| && h[i] == c;
      var z := h[|h| - 1];
      assert z in h && z.point <= last.point;
      assert i < |h| - 1 ==> c.point < z.point;
    }
  }

  /** Every natural card of a colour is among the first of its points. */
  lemma {:induction false} FirstsHold(cards: seq<Card>, color: nat, jokerPoint: int, c: Card)
    requires OneColor(cards, color) && c in cards && !Wild(c, jokerPoint)
    ensures c in Firsts(cards, jokerPoint)
  {
    var init, last := cards[..|cards| - 1], cards[|cards| - 1];
    assert last in cards;
    FirstsRising(init, color, jokerPoint);
    var r := Firsts(init, jokerPoint);
    if r != [] { assert r[|r| - 1] in r && r[|r| - 1] in cards; }
    if c in init {
      FirstsHold(init, color, jokerPoint, c);
    } else {
      assert c == last;
    }
  }

  lemma {:induction false} HasStraightUpto(flush: seq<Card>, jokers: seq<Card>, n: nat, h: seq<Card>, g: CardGroup)
    requires h in Choose(flush, |h|) && 1 <= |h| <= n && g in HandStraights(jokers)(h)
    ensures g in StraightsUpto(flush, jokers, n)
  {
    hide Choose, HandStraights;
    if |h| == n {
      var hands := Choose(flush, n);
      var k :| 0 <= k < |hands| && hands[k] == h;
      HasFlatMap(hands, HandStraights(jokers), k, g);
    } else {
      HasStraightUpto(flush, jokers, n - 1, h, g);
    }
  }

  lemma {:induction false} HasColor(cards: seq<Card>, jokers: seq<Card>, jokerPoint: int, color: nat, n: nat,
                                    g: CardGroup)
    requires g in ColorStraights(cards, jokers, jokerPoint, color) && color < n
    ensures g in ColorsUpto(cards, jokers, jokerPoint, n)
  {
    hide ColorStraights;
    if color < n - 1 {
      HasColor(cards, jokers, jokerPoint, color, n - 1, g);
    }
  }

  /** A straight that some rising natural cards of the hand give is found. */
  lemma HandIsSearched(cards: seq<Card>, jokers: seq<Card>, jokerPoint: int, h: seq<Card>, g: CardGroup)
    requires Dealt(multiset(cards)) && Rising(h, jokerPoint) && h != [] && forall c :: c in h ==> c in cards
    requires g in HandStraights(jokers)(h)
    ensures g in StraightGroups(cards, jokers, jokerPoint)
  {
    hide Rising, HandStraights, SortCards, Flush, OneColor, Firsts, Repeats, Choose, Select, Dealt, StraightsUpto,
         PuresUpto, ColorsUpto, FlatMap, AllCombines;
    var color := h[0].color;
    var flush := SortCards(Flush(cards, color));
    var firsts := Firsts(flush, jokerPoint);
    FlushSorted(cards, color);
    FirstsRising(flush, color, jokerPoint);
    forall c | c in h
      ensures c in firsts
    {
      RisingColor(h, c, jokerPoint);
      FlushCount(cards, color, c);
      assert c in multiset(Flush(cards, color)) && c in multiset(flush);
      FirstsHold(flush, color, jokerPoint, c);
    }
    var v := RisingChoice(firsts, h, jokerPoint);
    HasChoice(firsts, v);
    CountAtMost(firsts, v);
    HasStraightUpto(firsts, jokers, |firsts| + |jokers|, h, g);
    DealtColor(cards, h[0]);
    HasColor(cards, jokers, jokerPoint, color, COLORS, g);
  }

  lemma CountAtMost(arr: seq<Card>, v: Mask)
    requires |v| == |arr|
    ensures |Select(arr, v)| == Count(v) <= |arr|
  {
  }

  lemma RisingColor(h: seq<Card>, c: Card, jokerPoint: int)
    requires Rising(h, jokerPoint) && c in h
    ensures c.color == h[0].color && !Wild(c, jokerPoint)
  {
    var i :| 0 <= i < |h| && h[i] == c;
  }

  lemma DealtColor(cards: seq<Card>, c: Card)
    requires Dealt(multiset(cards)) && c in cards
    ensures c.color < COLORS
  {
    assert c in multiset(cards);
  }

  lemma {:induction false} HasFilled(cards: seq<Card>, combines: seq<seq<Card>>, lo: int, hi: int, w: seq<Card>)
    requires w in combines && lo <= |w| <= hi
    ensures CardGroup(GROUP_STRAIGHT, SortCards(cards + w)) in FilledUpto(cards, combines, lo, hi)
    decreases hi - lo
  {
    hide SortCards, Filled, FlatMap;
    if |w| == hi {
      var k :| 0 <= k < |combines| && combines[k] == w;
      FilledAt(cards, hi, w);
      HasFlatMap(combines, Filled(cards, hi), k, CardGroup(GROUP_STRAIGHT, SortCards(cards + w)));
    } else {
      HasFilled(cards, combines, lo, hi - 1, w);
    }
  }

  /** Enough wild cards of the hand fill up any natural cards. */
  lemma HasWithJokers(cards: seq<Card>, jokers: seq<Card>, m: multiset<Card>) returns (w: seq<Card>)
    requires m <= multiset(jokers) && 1 <= |m| && FillNeed(cards) <= |m|
    ensures multiset(w) == m && CardGroup(GROUP_STRAIGHT, SortCards(cards + w)) in WithJokers(cards, jokers)
  {
    hide SortCards, Missing, Select, Choose;
    var v := ChoiceOf(jokers, m);
    w := Select(jokers, v);
    HasChoice(jokers, v);
    CountAtMost(jokers, v);
    assert |multiset(w)| == |w|;
    HasCombine(jokers, |jokers|, w);
    HasFilled(cards, AllCombines(jokers), FillNeed(cards), |jokers|, w);
  }

  // ----- sorted cards are determined

  lemma {:induction false} SortedUnique(a: seq<Card>, b: seq<Card>)
    requires Sorted(a) && Sorted(b) && multiset(a) == multiset(b)
    ensures a == b
  {
    assert |multiset(a)| == |a| && |multiset(b)| == |b|;
    if a != [] {
      GreatestSame(a, b);
      LastOut(a);
      LastOut(b);
      hide Sorted;
      SortedUnique(a[..|a| - 1], b[..|b| - 1]);
    }
  }

  lemma LastOut(a: seq<Card>)
    requires a != [] && Sorted(a)
    ensures multiset(a[..|a| - 1]) == multiset(a) - multiset{a[|a| - 1]} && Sorted(a[..|a| - 1])
    ensures a == a[..|a| - 1] + [a[|a| - 1]]
  {
    assert a == a[..|a| - 1] + [a[|a| - 1]];
  }

  lemma GreatestSame(a: seq<Card>, b: seq<Card>)
    requires Sorted(a) && Sorted(b) && multiset(a) == multiset(b) && a != [] && b != []
    ensures a[|a| - 1] == b[|b| - 1]
  {
    var x, y := a[|a| - 1], b[|b| - 1];
    assert x in multiset(b) && y in multiset(a);
    var i :| 0 <= i < |b| && b[i] == x;
    var j :| 0 <= j < |a| && a[j] == y;
    assert i == |b| - 1 || Upto(x, y);
    assert j == |a| - 1 || Upto(y, x);
  }

  // ----- three cards

  /** The last two of three sorted cards are natural aces: the search never puts them in one straight. */
  predicate TwoNaturalAces(t: seq<Card>, jokerPoint: int) {
    |t| >= 3 && t[1].point == ACE && t[2].point == ACE && jokerPoint != ACE
  }

  lemma NeedOfOne(c: Card)
    ensures FillNeed([c]) == 2
  {
  }

  lemma NeedOfTwo(c: Card, d: Card)
    ensures FillNeed([c, d]) ==
            var gap := if c.point == ACE then d.point - 2 else d.point - c.point - 1;
            if gap < 1 then 1 else gap
  {
    assert [c, d][..1] == [c];
    MissingOfOne(c);
  }

  /** The natural cards h of t, in a hand that holds t, with the wild cards of t or alone. */
  lemma NaturalsReach(cards: seq<Card>, jokers: seq<Card>, jokerPoint: int, t: seq<Card>, h: seq<Card>,
                      m: multiset<Card>)
    requires Dealt(multiset(cards)) && Sorted(t) && m <= multiset(jokers) && 1 <= |m|
    requires multiset(t) == multiset(h) + m && multiset(t) <= multiset(cards)
    requires Rising(h, jokerPoint) && h != []
    requires FillNeed(h) <= |m|
          || (|h| > 1 && h[|h| - 1].point == ACE && FillNeed([h[|h| - 1]] + h[..|h| - 1]) <= |m|)
    ensures CardGroup(GROUP_STRAIGHT, t) in StraightGroups(cards, jokers, jokerPoint)
  {
    hide Dealt, Rising, SortCards, WithJokers, StraightGroups, FillNeed, Sorted, PassesAsPure;
    var low := [h[|h| - 1]] + h[..|h| - 1];
    assert h == h[..|h| - 1] + [h[|h| - 1]];
    var base := if FillNeed(h) <= |m| then h else low;
    assert multiset(base) == multiset(h);
    var w := HasWithJokers(base, jokers, m);
    assert multiset(base + w) == multiset(t);
    SortCardsSorted(base + w);
    SortedUnique(SortCards(base + w), t);
    forall c | c in h
      ensures c in cards
    {
      assert c in multiset(h) && c in multiset(t) && c in multiset(cards);
    }
    HandIsSearched(cards, jokers, jokerPoint, h, CardGroup(GROUP_STRAIGHT, t));
  }

  /** The case without wild cards. */
  lemma PureReach(cards: seq<Card>, jokers: seq<Card>, jokerPoint: int, t: seq<Card>)
    requires Dealt(multiset(cards)) && multiset(t) <= multiset(cards) && Rising(t, jokerPoint) && PassesAsPure(t)
    ensures CardGroup(GROUP_STRAIGHT, t) in StraightGroups(cards, jokers, jokerPoint)
  {
    hide Dealt, Rising, WithJokers, StraightGroups;
    forall c | c in t
      ensures c in cards
    {
      assert c in multiset(t) && c in multiset(cards);
    }
    assert CardGroup(GROUP_STRAIGHT, t) in PureAlone()(t);
    HandIsSearched(cards, jokers, jokerPoint, t, CardGroup(GROUP_STRAIGHT, t));
  }

  /** What three cards that pass as pure look like. */
  lemma ThreePure(t: seq<Card>)
    requires |t| == 3 && PassesAsPure(t)
    ensures Follows(t[0], t[1])
    ensures || (Follows(t[1], t[2]) && t[1].point == t[0].point + 1 && t[2].point == t[0].point + 2)
            || (Follows(t[1], t[2]) && t[0].point == 2 && t[1].point == 3 && t[2].point == ACE)
            || (t[0].point == 2 && t[1].point == ACE)
  {
    if !Consecutive(t) {
      var n :| AceAt(t, n);
      assert n == 2 ==> t[..2][0] == t[0] && t[..2][1] == t[1];
    }
  }

  ghost predicate Pair(h: seq<Card>, jokerPoint: int) {
    |h| == 2 && h[0].color == h[1].color && 2 <= h[0].point < h[1].point
    && !Wild(h[0], jokerPoint) && !Wild(h[1], jokerPoint)
  }

  lemma PairRises(h: seq<Card>, jokerPoint: int)
    requires Pair(h, jokerPoint)
    ensures Rising(h, jokerPoint)
  {
  }

  /** One card short: two natural cards a gap of one apart or less, the ace low if need be. */
  lemma PairReach(cards: seq<Card>, jokers: seq<Card>, jokerPoint: int, t: seq<Card>, c: Card, d: Card, w: Card)
    requires Dealt(multiset(cards)) && JokersOf(multiset(jokers), multiset(cards), jokerPoint)
    requires Sorted(t) && multiset(t) <= multiset(cards) && multiset(t) == multiset{c, d, w} && Wild(w, jokerPoint)
    requires Pair([c, d], jokerPoint) && Near(c, d)
    ensures CardGroup(GROUP_STRAIGHT, t) in StraightGroups(cards, jokers, jokerPoint)
  {
    hide Dealt, Rising, StraightGroups, FillNeed, Sorted;
    var h := [c, d];
    PairRises(h, jokerPoint);
    NeedOfTwo(c, d);
    NeedOfTwo(d, c);
    assert [d] + h[..1] == [d, c];
    WildOne(cards, jokers, jokerPoint, multiset{w}, t);
    NaturalsReach(cards, jokers, jokerPoint, t, h, multiset{w});
  }

  lemma WildOne(cards: seq<Card>, jokers: seq<Card>, jokerPoint: int, m: multiset<Card>, t: seq<Card>)
    requires JokersOf(multiset(jokers), multiset(cards), jokerPoint) && multiset(t) <= multiset(cards)
    requires m <= multiset(t) && forall c :: c in m ==> Wild(c, jokerPoint)
    ensures m <= multiset(jokers)
  {
    forall c
      ensures m[c] <= multiset(jokers)[c]
    {
      if c in m { assert m[c] <= multiset(t)[c] <= multiset(cards)[c]; }
    }
  }

  lemma SingleRises(c: Card, jokerPoint: int)
    requires !Wild(c, jokerPoint) && 2 <= c.point
    ensures Rising([c], jokerPoint)
  {
  }

  lemma SingleReach(cards: seq<Card>, jokers: seq<Card>, jokerPoint: int, t: seq<Card>, c: Card, v: Card, w: Card)
    requires Dealt(multiset(cards)) && JokersOf(multiset(jokers), multiset(cards), jokerPoint)
    requires Sorted(t) && multiset(t) <= multiset(cards) && multiset(t) == multiset{c, v, w}
    requires Wild(v, jokerPoint) && Wild(w, jokerPoint) && !Wild(c, jokerPoint) && 2 <= c.point
    ensures CardGroup(GROUP_STRAIGHT, t) in StraightGroups(cards, jokers, jokerPoint)
  {
    hide Dealt, StraightGroups, FillNeed, Sorted, Rising;
    NeedOfOne(c);
    SingleRises(c, jokerPoint);
    WildOne(cards, jokers, jokerPoint, multiset{v, w}, t);
    NaturalsReach(cards, jokers, jokerPoint, t, [c], multiset{v, w});
  }

  lemma PointsFrom2(cards: seq<Card>, t: seq<Card>)
    requires Dealt(multiset(cards)) && multiset(t) <= multiset(cards)
    ensures forall c :: c in t ==> 2 <= c.point
  {
    forall c | c in t
      ensures 2 <= c.point
    {
      assert c in multiset(t) && c in multiset(cards);
    }
  }

  /** Any two of them that are natural are of one colour and near, the ace low if need be; all three rise. */
  lemma NaturalTwo(t: seq<Card>, i: nat, j: nat, jokerPoint: int)
    requires |t| == 3 && Sorted(t) && PassesAsPure(t) && !TwoNaturalAces(t, jokerPoint)
    requires i < j < 3 && !Wild(t[i], jokerPoint) && !Wild(t[j], jokerPoint) && 2 <= t[i].point
    ensures Pair([t[i], t[j]], jokerPoint) && Near(t[i], t[j])
  {
    ThreePure(t);
    assert Upto(t[0], t[1]) && Upto(t[1], t[2]);
  }

  predicate Near(c: Card, d: Card) { d.point - c.point <= 2 || (d.point == ACE && c.point <= 3) }

  lemma NaturalThree(t: seq<Card>, jokerPoint: int)
    requires |t| == 3 && Pair([t[0], t[1]], jokerPoint) && Pair([t[1], t[2]], jokerPoint)
    ensures Rising(t, jokerPoint)
  {
    assert t == [t[0], t[1], t[2]];
  }

  /** Three cards of the hand that pass as pure, natural or not, are found, but for two natural aces. */
  lemma ThreeReach(cards: seq<Card>, jokers: seq<Card>, jokerPoint: int, t: seq<Card>)
    requires Dealt(multiset(cards)) && JokersOf(multiset(jokers), multiset(cards), jokerPoint)
    requires |t| == 3 && Sorted(t) && multiset(t) <= multiset(cards)
    requires PassesAsPure(t) && !TwoNaturalAces(t, jokerPoint)
    ensures CardGroup(GROUP_STRAIGHT, t) in StraightGroups(cards, jokers, jokerPoint)
  {
    hide Dealt, JokersOf, StraightGroups, Sorted, PassesAsPure, TwoNaturalAces, Wild, Pair, Near, Rising;
    PointsFrom2(cards, t);
    var a, b, c := t[0], t[1], t[2];
    assert a in t && b in t && c in t;
    ThreeInAnyOrder(t);
    if Wild(a, jokerPoint) && Wild(b, jokerPoint) {
      NotAllWild(t, jokerPoint);
      SingleReach(cards, jokers, jokerPoint, t, c, a, b);
    } else if Wild(a, jokerPoint) && Wild(c, jokerPoint) {
      SingleReach(cards, jokers, jokerPoint, t, b, a, c);
    } else if Wild(b, jokerPoint) && Wild(c, jokerPoint) {
      SingleReach(cards, jokers, jokerPoint, t, a, b, c);
    } else if Wild(a, jokerPoint) {
      NaturalTwo(t, 1, 2, jokerPoint);
      PairReach(cards, jokers, jokerPoint, t, b, c, a);
    } else if Wild(b, jokerPoint) {
      NaturalTwo(t, 0, 2, jokerPoint);
      PairReach(cards, jokers, jokerPoint, t, a, c, b);
    } else if Wild(c, jokerPoint) {
      NaturalTwo(t, 0, 1, jokerPoint);
      PairReach(cards, jokers, jokerPoint, t, a, b, c);
    } else {
      NaturalTwo(t, 0, 1, jokerPoint);
      NaturalTwo(t, 1, 2, jokerPoint);
      NaturalThree(t, jokerPoint);
      PureReach(cards, jokers, jokerPoint, t);
    }
  }

  lemma ThreeInAnyOrder(t: seq<Card>)
    requires |t| == 3
    ensures multiset(t) == multiset{t[0], t[1], t[2]} == multiset{t[2], t[0], t[1]} == multiset{t[1], t[0], t[2]}
    ensures multiset(t) == multiset{t[1], t[2], t[0]} == multiset{t[0], t[2], t[1]}
  {
    assert t == [t[0], t[1], t[2]];
  }

  lemma NotAllWild(t: seq<Card>, jokerPoint: int)
    requires |t| == 3 && PassesAsPure(t)
    ensures !(Wild(t[0], jokerPoint) && Wild(t[1], jokerPoint) && Wild(t[2], jokerPoint))
  {
    hide PassesAsPure;
    if Wild(t[0], jokerPoint) && Wild(t[1], jokerPoint) && Wild(t[2], jokerPoint) {
      WildNeverPure(t, jokerPoint);
    }
  }

  // ----- when nothing is found

  lemma SomeFlatMap<T, U>(list: seq<T>, f: T -> seq<U>, k: nat)
    requires k < |list| && f(list[k]) != []
    ensures FlatMap(list, f) != []
  {
    HasFlatMap(list, f, k, f(list[k])[0]);
  }

  lemma {:induction false} NoFlatMap<T, U>(list: seq<T>, f: T -> seq<U>)
    requires forall k :: 0 <= k < |list| ==> f(list[k]) == []
    ensures FlatMap(list, f) == []
  {
    if list != [] {
      NoFlatMap(list[..|list| - 1], f);
    }
  }

  /** A first group that leaves cards gives a combination; one that leaves none is passed over. */
  lemma FirstGives(hand: seq<Card>, jokers: seq<Card>, straights: seq<CardGroup>, jokerPoint: int, g: CardGroup)
    ensures WithFirst(hand, jokers, straights, jokerPoint)(g) == [] <==> Removed(hand, g.cards) == []
  {
    var cards1, jokers1 := Removed(hand, g.cards), Removed(jokers, g.cards);
    var seconds := Within(cards1, straights);
    hide Removed, Within, WithSecond, FlatMap, Complete;
    if cards1 != [] && seconds != [] {
      SecondGives(g, cards1, jokers1, jokerPoint, seconds[0]);
      SomeFlatMap(seconds, WithSecond(g, cards1, jokers1, jokerPoint), 0);
    }
  }

  lemma SecondGives(first: CardGroup, cards1: seq<Card>, jokers1: seq<Card>, jokerPoint: int, g: CardGroup)
    ensures WithSecond(first, cards1, jokers1, jokerPoint)(g) != []
  {
    var cards2, jokers2 := Removed(cards1, g.cards), Removed(jokers1, g.cards);
    var found := StraightGroups(cards2, jokers2, jokerPoint) + SetGroups(cards2, jokers2, jokerPoint);
    hide Removed, WithThird, FlatMap, StraightGroups, SetGroups, Complete;
    if cards2 != [] && found != [] {
      ThirdGives([first, g], cards2, found, jokerPoint, found[0]);
      SomeFlatMap(found, WithThird([first, g], cards2, found, jokerPoint), 0);
    }
  }

  lemma ThirdGives(groups: seq<CardGroup>, cards2: seq<Card>, found: seq<CardGroup>, jokerPoint: int, g: CardGroup)
    ensures WithThird(groups, cards2, found, jokerPoint)(g) != []
  {
    var cards3 := Removed(cards2, g.cards);
    var more := Within(cards3, found);
    hide Removed, Within, FlatMap, Complete;
    if cards3 != [] && more != [] {
      SomeFlatMap(more, WithFourth(groups + [g], cards3, jokerPoint), 0);
    }
  }

  /** Nothing is left exactly when the group is the whole hand. */
  lemma NothingLeft(hand: seq<Card>, group: seq<Card>)
    requires multiset(group) <= multiset(hand)
    ensures Removed(hand, group) == [] <==> |group| == |hand|
    ensures |group| == |hand| ==> multiset(group) == multiset(hand)
  {
    hide Removed;
    RemovedCount(hand, group);
    var rest := multiset(hand) - multiset(group);
    assert multiset(hand) == multiset(group) + rest;
    assert |multiset(group) + rest| == |multiset(group)| + |rest|;
    assert |multiset(hand)| == |hand| && |multiset(group)| == |group|;
    assert |multiset(Removed(hand, group))| == |Removed(hand, group)|;
  }

  /** The naturals of a straight are linked, so it has not two natural aces behind its first card. */
  lemma StraightHasOneAce(g: CardGroup, m: multiset<Card>, jokerPoint: int)
    requires MadeStraight(g, m, jokerPoint) && PassesAsPure(g.cards)
    ensures Sorted(g.cards) && !TwoNaturalAces(g.cards, jokerPoint)
  {
    hide SortCards, Sorted, PassesAsPure, Chain, Naturals, Gaps, IsStraight;
    var s := g.cards;
    SortCardsSorted(s);
    StraightCases(s, jokerPoint);
    NaturalsPrefix(s, jokerPoint, 3);
    NaturalsSplit(s, jokerPoint, 1);
    NaturalsSplit(s, jokerPoint, 2);
    ChainPrefix(Naturals(s[..3], jokerPoint), Naturals(s, jokerPoint));
    if TwoNaturalAces(s, jokerPoint) {
      var front := Naturals(s[..1], jokerPoint);
      assert Naturals(s[..3], jokerPoint) == (front + [s[1]]) + [s[2]];
      ChainAppend(front + [s[1]], s[2]);
    }
  }

  lemma FirstThreePure(s: seq<Card>)
    requires |s| >= 3 && Sorted(s) && PassesAsPure(s)
    ensures Sorted(s[..3]) && PassesAsPure(s[..3])
  {
    var t := s[..3];
    if Consecutive(s) {
      assert Consecutive(t);
    } else {
      var n :| AceAt(s, n);
      if n < 3 {
        assert t[..n] == s[..n];
        assert AceAt(t, n);
      } else {
        assert forall i :: 0 <= i < 3 ==> s[..n][i] == t[i];
        assert Consecutive(t);
      }
    }
  }

  lemma FirstsReach(hand: seq<Card>, jokerPoint: int, t: seq<Card>) returns (k: nat)
    requires Dealt(multiset(hand)) && |t| == 3 && Sorted(t) && multiset(t) <= multiset(hand)
    requires PassesAsPure(t) && !TwoNaturalAces(t, jokerPoint)
    ensures var firsts := PassingPure(StraightGroups(hand, WildCards(hand, jokerPoint), jokerPoint));
            k < |firsts| && firsts[k] == CardGroup(GROUP_STRAIGHT, t)
  {
    var jokers := WildCards(hand, jokerPoint);
    hide Dealt, JokersOf, Sorted, PassesAsPure, WildCards, StraightGroups, PassingPure;
    WildJokers(hand, jokerPoint);
    ThreeReach(hand, jokers, jokerPoint, t);
    var straights := StraightGroups(hand, jokers, jokerPoint);
    InPassingPure(straights, CardGroup(GROUP_STRAIGHT, t));
    k :| 0 <= k < |PassingPure(straights)| && PassingPure(straights)[k] == CardGroup(GROUP_STRAIGHT, t);
  }

  /** A first group of the search: a straight of the hand that passes as pure, in order. */
  lemma FirstIs(hand: seq<Card>, jokerPoint: int, k: nat)
    requires Dealt(multiset(hand))
    requires k < |PassingPure(StraightGroups(hand, WildCards(hand, jokerPoint), jokerPoint))|
    ensures var g := PassingPure(StraightGroups(hand, WildCards(hand, jokerPoint), jokerPoint))[k];
            && |g.cards| >= 3 && multiset(g.cards) <= multiset(hand)
            && Sorted(g.cards) && PassesAsPure(g.cards) && !TwoNaturalAces(g.cards, jokerPoint)
  {
    var jokers := WildCards(hand, jokerPoint);
    var straights := StraightGroups(hand, jokers, jokerPoint);
    var g := PassingPure(straights)[k];
    MadeParts(g, multiset(hand), jokerPoint);
    hide Dealt, JokersOf, Sorted, PassesAsPure, WildCards, StraightGroups, PassingPure, MadeStraight, TwoNaturalAces;
    WildJokers(hand, jokerPoint);
    InPassingPure(straights, g);
    StraightsAreStraights(hand, jokers, jokerPoint, g);
    StraightHasOneAce(g, multiset(hand), jokerPoint);
  }

  lemma MadeParts(g: CardGroup, m: multiset<Card>, jokerPoint: int)
    ensures MadeStraight(g, m, jokerPoint) ==> |g.cards| >= 3 && multiset(g.cards) <= m
  {
  }

  /** The three cards of the hand are a pure straight the search finds. */
  ghost predicate WholePureThree(hand: seq<Card>, jokerPoint: int) {
    |hand| == 3 && PassesAsPure(SortCards(hand)) && !TwoNaturalAces(SortCards(hand), jokerPoint)
  }

  /** No combination is found if and only if the hand is three cards that form a pure straight, which the
      loop passes over because nothing is left beside it. For a hand of any other size one is found. */
  lemma NothingFoundIff(hand: seq<Card>, jokerPoint: int)
    requires Dealt(multiset(hand))
    ensures AllInfos(hand, jokerPoint) == [] <==> WholePureThree(hand, jokerPoint)
  {
    var jokers := WildCards(hand, jokerPoint);
    var straights := StraightGroups(hand, jokers, jokerPoint);
    var firsts := PassingPure(straights);
    var f := WithFirst(hand, jokers, straights, jokerPoint);
    hide Dealt, Sorted, PassesAsPure, WildCards, StraightGroups, PassingPure, WithFirst, FlatMap, TwoNaturalAces,
         SortCards, TotalScore;
    SortCardsSorted(hand);
    if WholePureThree(hand, jokerPoint) {
      var k0 := FirstsReach(hand, jokerPoint, SortCards(hand));
      forall k | 0 <= k < |firsts|
        ensures f(firsts[k]) == []
      {
        FirstIs(hand, jokerPoint, k);
        WholeTaken(hand, firsts[k].cards);
        FirstGives(hand, jokers, straights, jokerPoint, firsts[k]);
      }
      NoFlatMap(firsts, f);
    } else if firsts != [] {
      var k := FirstLeavesSome(hand, jokerPoint);
      FirstGives(hand, jokers, straights, jokerPoint, firsts[k]);
      SomeFlatMap(firsts, f, k);
    }
  }

  lemma WholeTaken(hand: seq<Card>, group: seq<Card>)
    requires multiset(group) <= multiset(hand) && |group| >= |hand|
    ensures Removed(hand, group) == []
  {
    hide Removed;
    NothingLeft(hand, group);
    assert |multiset(group)| <= |multiset(hand)| by {
      assert multiset(hand) == multiset(group) + (multiset(hand) - multiset(group));
    }
    assert |multiset(hand)| == |hand| && |multiset(group)| == |group|;
  }

  /** Some first group leaves cards: the one at hand, or the first three cards of one that takes all. */
  lemma FirstLeavesSome(hand: seq<Card>, jokerPoint: int) returns (k: nat)
    requires Dealt(multiset(hand)) && !WholePureThree(hand, jokerPoint)
    requires PassingPure(StraightGroups(hand, WildCards(hand, jokerPoint), jokerPoint)) != []
    ensures var firsts := PassingPure(StraightGroups(hand, WildCards(hand, jokerPoint), jokerPoint));
            k < |firsts| && Removed(hand, firsts[k].cards) != []
  {
    var firsts := PassingPure(StraightGroups(hand, WildCards(hand, jokerPoint), jokerPoint));
    hide Dealt, Sorted, PassesAsPure, WildCards, StraightGroups, PassingPure, SortCards, Removed;
    k := 0;
    FirstIs(hand, jokerPoint, 0);
    var s := firsts[0].cards;
    NothingLeft(hand, s);
    if Removed(hand, s) == [] {
      SortCardsSorted(hand);
      SortedUnique(s, SortCards(hand));
      var t := s[..3];
      FirstThreePure(s);
      assert s == t + s[3..];
      assert !TwoNaturalAces(t, jokerPoint);
      k := FirstsReach(hand, jokerPoint, t);
      NothingLeft(hand, t);
    }
  }

  // ----- sets of more than four cards

  const FOUR_NINES: seq<Card> := [Card(1, 9), Card(2, 9), Card(3, 9), Card(4, 9)]
  const ONE_JOKER: seq<Card> := [Card(0, JOKER1)]

  /** Four nines and a joker are offered as one set of five, which the rules refuse. */
  lemma FiveCardSetFound()
    ensures var g := CardGroup(GROUP_THREE_KIND, FOUR_NINES + ONE_JOKER);
            g in SetGroups(FOUR_NINES + ONE_JOKER, ONE_JOKER, 5) && !SetGroup(g, 5)
  {
    var g := CardGroup(GROUP_THREE_KIND, FOUR_NINES + ONE_JOKER);
    FiveInPointSets(g);
    TooManyForSet(g, 5);
    NinesScanned();
  }

  lemma TooManyForSet(g: CardGroup, jokerPoint: int)
    requires |g.cards| > 4
    ensures !SetGroup(g, jokerPoint)
  {
    hide SortCards;
  }

  lemma SetGroupsSorted(cards: seq<Card>, jokers: seq<Card>, jokerPoint: int)
    requires Sorted(cards)
    ensures SetGroups(cards, jokers, jokerPoint) == SetsFrom(cards, [], [], jokers, jokerPoint)
  {
    hide SetsFrom;
    SortedStays(cards);
  }

  lemma NinesScanned()
    ensures forall g :: g in PointSets(FOUR_NINES, [], ONE_JOKER) ==>
              g in SetGroups(FOUR_NINES + ONE_JOKER, ONE_JOKER, 5)
  {
    hide PointSets, SetGroups, SetsFrom;
    NinesListed();
    ScanFour(Card(1, 9), Card(2, 9), Card(3, 9), Card(4, 9), Card(0, JOKER1), ONE_JOKER, 5);
    SetGroupsSorted(FOUR_NINES + ONE_JOKER, ONE_JOKER, 5);
  }

  lemma NinesListed()
    ensures FOUR_NINES + ONE_JOKER == [Card(1, 9), Card(2, 9), Card(3, 9), Card(4, 9), Card(0, JOKER1)]
    ensures Sorted(FOUR_NINES + ONE_JOKER)
  {
  }

  lemma FiveInPointSets(g: CardGroup)
    requires g == CardGroup(GROUP_THREE_KIND, FOUR_NINES + ONE_JOKER)
    ensures g in PointSets(FOUR_NINES, [], ONE_JOKER)
  {
    hide Choose, Select;
    WholeChoice(FOUR_NINES);
    WholeChoice(ONE_JOKER);
    HasCombine(ONE_JOKER, 1, ONE_JOKER);
    var combines := AllCombines(ONE_JOKER);
    var j :| 0 <= j < |combines| && combines[j] == ONE_JOKER;
    HasFlatMap(combines, SetWith(FOUR_NINES), j, g);
    var hands := Choose(FOUR_NINES, 4);
    var k :| 0 <= k < |hands| && hands[k] == FOUR_NINES;
    HasFlatMap(hands, HandSets(ONE_JOKER), k, g);
  }

  /** All elements are a choice. */
  lemma WholeChoice<T>(arr: seq<T>)
    ensures arr in Choose(arr, |arr|)
  {
    hide Choose;
    HasChoice(arr, On(|arr|));
    CountOn(|arr|);
    SelectOn(arr);
  }

  lemma {:induction false} SelectOn<T>(arr: seq<T>)
    ensures Select(arr, On(|arr|)) == arr
  {
    if arr != [] {
      SelectOn(arr[..|arr| - 1]);
      assert On(|arr|)[..|arr| - 1] == On(|arr| - 1);
    }
  }

  /** The scan pops four different cards of a point and, at the joker behind them, lists their sets. */
  lemma ScanFour(a: Card, b: Card, c: Card, d: Card, joker: Card, jokers: seq<Card>, jokerPoint: int)
    requires a.point == b.point == c.point == d.point && !Wild(a, jokerPoint) && Wild(joker, jokerPoint)
    requires a.color < b.color < c.color < d.color
    ensures forall g :: g in PointSets([a, b, c, d], [], jokers) ==>
              g in SetsFrom([a, b, c, d, joker], [], [], jokers, jokerPoint)
  {
    hide PointSets;
    assert [a, b, c, d, joker][1..] == [b, c, d, joker] && [b, c, d, joker][1..] == [c, d, joker];
    assert [c, d, joker][1..] == [d, joker] && [d, joker][1..] == [joker];
    assert [] + [a] == [a] && [a] + [b] == [a, b] && [a, b] + [c] == [a, b, c] && [a, b, c] + [d] == [a, b, c, d];
    var four := SetsFrom([joker], [a, b, c, d], [], jokers, jokerPoint);
    assert SetsFrom([d, joker], [a, b, c], [], jokers, jokerPoint) == four;
    assert SetsFrom([c, d, joker], [a, b], [], jokers, jokerPoint) == four;
    assert SetsFrom([b, c, d, joker], [a], [], jokers, jokerPoint) == four;
  }
}
