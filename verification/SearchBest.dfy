/** The search misses nothing: every straight and every set of a hand is found, so no way to show the hand
    costs less than what default_declare settles on. */
module SearchBest {
  import opened CardDealer
  import opened GroupRules
  import opened Choices
  import opened GroupSearch
  import opened GroupFacts
  import opened HandFacts
  import opened SearchReach

  // ----- sets

  /** The natural cards of a set are different cards of one point. */
  lemma {:induction false} NaturalsOfSet(t: seq<Card>, jokerPoint: int)
    requires forall i, j :: 0 <= i < j < |t| && !Wild(t[i], jokerPoint) && !Wild(t[j], jokerPoint) ==>
               SameSet(t[i], t[j])
    ensures OnePoint(Naturals(t, jokerPoint), jokerPoint)
  {
    if t != [] {
      var init, last := t[..|t| - 1], t[|t| - 1];
      NaturalsOfSet(init, jokerPoint);
      NaturalsAre(init, jokerPoint);
      var h := Naturals(init, jokerPoint);
      if !Wild(last, jokerPoint) {
        forall c | c in h
          ensures c.point == last.point && c != last
        {
          var i :| 0 <= i < |init| && init[i] == c;
          assert SameSet(t[i], last);
        }
        OnePointAppend(h, last, jokerPoint);
      }
    }
  }

  lemma OnePointAppend(h: seq<Card>, c: Card, jokerPoint: int)
    requires OnePoint(h, jokerPoint) && !Wild(c, jokerPoint) && forall d :: d in h ==> d.point == c.point && d != c
    ensures OnePoint(h + [c], jokerPoint)
  {
    assert c !in h;
    assert multiset(h + [c]) == multiset(h) + multiset{c};
  }

  lemma TwoMembers(h: seq<Card>, p: seq<Card>)
    requires |h| >= 2 && (forall c :: c in h ==> multiset(h)[c] == 1) && forall c :: c in h ==> c in p
    ensures |p| >= 2
  {
    assert h[0] in h && h[1] in h;
    if h[0] == h[1] { TwiceCounted(h, 0, 1); }
    var i :| 0 <= i < |p| && p[i] == h[0];
    var j :| 0 <= j < |p| && p[j] == h[1];
  }

  /** The scan comes to the point of h with all its cards popped. */
  lemma {:induction false} PointScanned(left: seq<Card>, pops: seq<Card>, repeats: seq<Card>, jokers: seq<Card>,
                                        jokerPoint: int, h: seq<Card>) returns (p: seq<Card>, r: seq<Card>)
    requires Sorted(left) && Popped(pops, repeats, jokerPoint)
    requires forall c, d :: c in pops && d in left ==> c.point <= d.point
    requires OnePoint(h, jokerPoint) && |h| >= 2 && forall c :: c in h ==> c in pops || c in left
    ensures Popped(p, r, jokerPoint) && forall c :: c in h ==> c in p
    ensures forall g :: g in PointSets(p, r, jokers) ==> g in SetsFrom(left, pops, repeats, jokers, jokerPoint)
    decreases |left|
  {
    hide PointSets;
    if left == [] {
      p, r := pops, repeats;
      TwoMembers(h, pops);
    } else {
      var c, rest := left[0], left[1..];
      assert left == [c] + rest;
      RestSorted(left);
      if (pops == [] || pops[0].point == c.point) && !Wild(c, jokerPoint) {
        PoppedNext(pops, repeats, c, jokerPoint);
        if c in pops {
          p, r := PointScanned(rest, pops, repeats + [c], jokers, jokerPoint, h);
        } else {
          p, r := PointScanned(rest, pops + [c], repeats, jokers, jokerPoint, h);
        }
      } else if exists d :: d in h && d in pops {
        AllPopped(left, pops, repeats, jokerPoint, h);
        TwoMembers(h, pops);
        p, r := pops, repeats;
      } else {
        PoppedFirst(c, jokerPoint);
        p, r := PointScanned(rest, [c], [], jokers, jokerPoint, h);
      }
    }
  }

  lemma RestSorted(left: seq<Card>)
    requires Sorted(left) && left != []
    ensures Sorted(left[1..]) && forall d :: d in left ==> left[0].point <= d.point
  {
    forall d | d in left
      ensures left[0].point <= d.point
    {
      var i :| 0 <= i < |left| && left[i] == d;
      assert i == 0 || Upto(left[0], left[i]);
    }
    assert forall i :: 0 <= i < |left| - 1 ==> left[1..][i] == left[i + 1];
  }

  /** When the scan leaves a point of which h has a card, all of h is popped. */
  lemma AllPopped(left: seq<Card>, pops: seq<Card>, repeats: seq<Card>, jokerPoint: int, h: seq<Card>)
    requires Sorted(left) && left != [] && Popped(pops, repeats, jokerPoint)
    requires forall c, d :: c in pops && d in left ==> c.point <= d.point
    requires OnePoint(h, jokerPoint) && forall c :: c in h ==> c in pops || c in left
    requires exists d :: d in h && d in pops
    requires pops == [] || pops[0].point != left[0].point || Wild(left[0], jokerPoint)
    ensures forall c :: c in h ==> c in pops
  {
    var d :| d in h && d in pops;
    RestSorted(left);
    assert pops[0] in pops && pops[0].point == d.point && left[0] in left;
  }

  /** Natural cards of a popped point, with wild cards or three at least, are listed. */
  lemma SetListed(p: seq<Card>, r: seq<Card>, jokers: seq<Card>, jokerPoint: int, h: seq<Card>, m: multiset<Card>)
    returns (g: CardGroup)
    requires Popped(p, r, jokerPoint) && OnePoint(h, jokerPoint) && forall c :: c in h ==> c in p
    requires 2 <= |h| <= 4 && m <= multiset(jokers) && |h| + |m| >= 3
    ensures g in PointSets(p, r, jokers) && multiset(g.cards) == multiset(h) + m
  {
    hide Select, Choose, AllCombines, HandSets;
    forall c
      ensures multiset(h)[c] <= multiset(p)[c]
    {
      if c in h { assert c in p; }
    }
    var v := ChoiceOf(p, multiset(h));
    var hand := Select(p, v);
    HasChoice(p, v);
    CountAtMost(p, v);
    assert |multiset(hand)| == |hand| && |multiset(h)| == |h|;
    g := HandSetListed(hand, jokers, m);
    var hands := Choose(p, |h|);
    var k :| 0 <= k < |hands| && hands[k] == hand;
    HasFlatMap(hands, HandSets(jokers), k, g);
  }

  lemma HandSetListed(hand: seq<Card>, jokers: seq<Card>, m: multiset<Card>) returns (g: CardGroup)
    requires m <= multiset(jokers) && |hand| + |m| >= 3 && |hand| <= 4
    ensures g in HandSets(jokers)(hand) && multiset(g.cards) == multiset(hand) + m
  {
    if m == multiset{} {
      g := CardGroup(GROUP_THREE_KIND, hand);
    } else {
      var w := WildChoice(jokers, m);
      var combines := AllCombines(jokers);
      var k :| 0 <= k < |combines| && combines[k] == w;
      g := CardGroup(GROUP_THREE_KIND, hand + w);
      hide AllCombines;
      HasFlatMap(combines, SetWith(hand), k, g);
    }
  }

  /** Some choice of the jokers takes just these. */
  lemma WildChoice(jokers: seq<Card>, m: multiset<Card>) returns (w: seq<Card>)
    requires m <= multiset(jokers) && m != multiset{}
    ensures w in AllCombines(jokers) && multiset(w) == m && |w| == |m| >= 1
  {
    hide Select, Choose;
    var v := ChoiceOf(jokers, m);
    w := Select(jokers, v);
    HasChoice(jokers, v);
    CountAtMost(jokers, v);
    assert |multiset(w)| == |w|;
    assert w != [];
    HasCombine(jokers, |jokers|, w);
  }

  /** The wild cards of t. */
  lemma WildsOf(t: seq<Card>, cards: seq<Card>, jokers: seq<Card>, jokerPoint: int) returns (m: multiset<Card>)
    requires JokersOf(multiset(jokers), multiset(cards), jokerPoint) && multiset(t) <= multiset(cards)
    ensures multiset(t) == multiset(Naturals(t, jokerPoint)) + m && m <= multiset(jokers)
    ensures |t| == |Naturals(t, jokerPoint)| + |m|
  {
    hide Naturals, Wild;
    var h := Naturals(t, jokerPoint);
    m := multiset(t) - multiset(h);
    forall c
      ensures multiset(h)[c] <= multiset(t)[c] && m[c] <= multiset(jokers)[c]
    {
      NaturalsCount(t, jokerPoint, c);
    }
    assert |multiset(h) + m| == |multiset(h)| + |m|;
    assert |multiset(t)| == |t| && |multiset(h)| == |h|;
  }

  /** Every set of the hand is found. */
  lemma SetsAreFound(cards: seq<Card>, jokers: seq<Card>, jokerPoint: int, t: seq<Card>) returns (g: CardGroup)
    requires JokersOf(multiset(jokers), multiset(cards), jokerPoint)
    requires multiset(t) <= multiset(cards) && IsSet(t, jokerPoint)
    ensures g in SetGroups(cards, jokers, jokerPoint) && multiset(g.cards) == multiset(t)
  {
    hide Naturals, SortCards, SetsFrom, PointSets, OnePoint, Popped, JokersOf, Sorted;
    var h := Naturals(t, jokerPoint);
    NaturalsOfSet(t, jokerPoint);
    NaturalsAre(t, jokerPoint);
    var m := WildsOf(t, cards, jokers, jokerPoint);
    forall c | c in h
      ensures c in SortCards(cards)
    {
      assert c in t && c in multiset(t) && c in multiset(cards) && c in multiset(SortCards(cards));
    }
    SortCardsSorted(cards);
    PoppedFirst(Card(0, 0), jokerPoint);
    var p, r := PointScanned(SortCards(cards), [], [], jokers, jokerPoint, h);
    g := SetListed(p, r, jokers, jokerPoint, h, m);
  }

  // ----- straights

  /** Linked sorted natural cards rise. */
  lemma ChainIsRising(h: seq<Card>, jokerPoint: int)
    requires Sorted(h) && Chain(h) && forall c :: c in h ==> !Wild(c, jokerPoint) && 2 <= c.point
    ensures Rising(h, jokerPoint)
  {
    forall i, j | 0 <= i < j < |h|
      ensures h[i].color == h[j].color && h[i].point < h[j].point
    {
      ChainRises(h, i, j);
    }
  }

  lemma ConsecutiveAppend(run: seq<Card>, c: Card)
    requires Consecutive(run) && run != []
    requires Follows(run[|run| - 1], c) && run[|run| - 1].point + 1 == c.point
    ensures Consecutive(run + [c])
  {
  }

  /** Without gaps rising cards are consecutive. */
  lemma {:induction false} NoGapsConsecutive(h: seq<Card>, jokerPoint: int)
    requires Rising(h, jokerPoint) && h != [] && h[|h| - 1].point - h[0].point <= |h| - 1
    ensures Consecutive(h)
  {
    if |h| > 1 {
      var init, last := h[..|h| - 1], h[|h| - 1];
      assert h == init + [last];
      RisingInit(init, last, jokerPoint);
      RisingSpan(init, jokerPoint);
      hide Rising, Consecutive;
      var before := init[|init| - 1];
      assert before in init && init[0] == h[0] && last.point == before.point + 1;
      NoGapsConsecutive(init, jokerPoint);
      RisingNatural(h, jokerPoint);
      assert before in h && last in h;
      ConsecutiveAppend(init, last);
    }
  }

  lemma {:induction false} RisingSpan(h: seq<Card>, jokerPoint: int)
    requires Rising(h, jokerPoint) && h != []
    ensures h[|h| - 1].point - h[0].point >= |h| - 1
  {
    if |h| > 1 {
      var init, last := h[..|h| - 1], h[|h| - 1];
      assert h == init + [last];
      RisingInit(init, last, jokerPoint);
      RisingSpan(init, jokerPoint);
      assert init[|init| - 1] in init;
    }
  }

  /** The ace low: the points it takes from the ace as one to the last card below it. */
  lemma LowGaps(front: seq<Card>, ace: Card, jokerPoint: int)
    requires Rising(front + [ace], jokerPoint) && ace.point == ACE && front != []
    ensures var low := SortCards(Lowered(front + [ace]));
            Gaps(low) == front[|front| - 1].point - 1 - |front|
  {
    hide Lowered, SortCards, Gaps, Chain;
    BelowAce(front, ace, jokerPoint);
    var low := [Card(ace.color, 1)] + front;
    LoweredFront(front, ace);
    assert multiset([ace] + front) == multiset(front + [ace]);
    LoweredSame([ace] + front, front + [ace]);
    SortedStays(low);
    SortCardsSorted(Lowered(front + [ace]));
    SortedUnique(SortCards(Lowered(front + [ace])), low);
    GapsTelescope(low);
  }

  /** Natural rising cards that w wild cards complete, high or low, take no more jokers than that. */
  lemma NeedAtMost(h: seq<Card>, w: nat, jokerPoint: int)
    requires Rising(h, jokerPoint) && h != [] && |h| + w >= 3 && w >= 1
    requires Gaps(h) <= w || Gaps(SortCards(Lowered(h))) <= w
    ensures FillNeed(h) <= w
         || (|h| > 1 && h[|h| - 1].point == ACE && FillNeed([h[|h| - 1]] + h[..|h| - 1]) <= w)
  {
    hide SortCards, Lowered, Missing, Gaps, Rising;
    MissingHigh(h, jokerPoint);
    GapsTelescope(h);
    if Gaps(h) > w {
      var front, ace := h[..|h| - 1], h[|h| - 1];
      assert h == front + [ace];
      AceIsLast(h, jokerPoint);
      if front != [] {
        LowGaps(front, ace, jokerPoint);
        BelowAce(front, ace, jokerPoint);
        MissingLow(ace, front);
      }
    }
  }

  /** If lowering changes anything the last of rising cards is the ace. */
  lemma AceIsLast(h: seq<Card>, jokerPoint: int)
    requires Rising(h, jokerPoint) && h != []
    ensures h[|h| - 1].point != ACE ==> SortCards(Lowered(h)) == h
  {
    hide SortCards;
    var last := h[|h| - 1];
    if last.point != ACE {
      forall c | c in h
        ensures c.point != ACE
      {
        var i :| 0 <= i < |h| && h[i] == c;
        assert last in h && !Wild(last, jokerPoint);
      }
      LoweredWithoutAce(h);
      RisingChain(h, jokerPoint);
      SortedStays(h);
    }
  }

  /** A straight without wild cards passes as pure. */
  lemma NaturalStraightPure(h: seq<Card>, jokerPoint: int)
    requires Rising(h, jokerPoint) && |h| >= 3 && (Gaps(h) <= 0 || Gaps(SortCards(Lowered(h))) <= 0)
    ensures PassesAsPure(h)
  {
    hide SortCards, Lowered, Gaps, Rising;
    GapsTelescope(h);
    if Gaps(h) <= 0 {
      NoGapsConsecutive(h, jokerPoint);
    } else {
      AceIsLast(h, jokerPoint);
      var front, ace := h[..|h| - 1], h[|h| - 1];
      assert h == front + [ace];
      LowGaps(front, ace, jokerPoint);
      LowIsAceAt(front, ace, jokerPoint);
    }
  }

  lemma LowIsAceAt(front: seq<Card>, ace: Card, jokerPoint: int)
    requires Rising(front + [ace], jokerPoint) && ace.point == ACE && |front| >= 2
    requires front[|front| - 1].point - 1 <= |front|
    ensures PassesAsPure(front + [ace])
  {
    var h := front + [ace];
    BelowAce(front, ace, jokerPoint);
    RisingInit(front, ace, jokerPoint);
    RisingSpan(front, jokerPoint);
    NoGapsConsecutive(front, jokerPoint);
    assert front[0] in front && front[|front| - 1] in front;
    if front[|front| - 1].point + 1 == ACE {
      NoGapsConsecutive(h, jokerPoint);
    } else {
      assert h[..|front|] == front;
      assert AceAt(h, |front|);
    }
  }

  /** Every straight of the hand is found, one with a natural card just as it is. */
  lemma StraightsAreFound(cards: seq<Card>, jokers: seq<Card>, jokerPoint: int, t: seq<Card>) returns (g: CardGroup)
    requires Dealt(multiset(cards)) && JokersOf(multiset(jokers), multiset(cards), jokerPoint)
    requires Sorted(t) && multiset(t) <= multiset(cards) && IsStraight(t, jokerPoint)
    ensures g in StraightGroups(cards, jokers, jokerPoint) && multiset(g.cards) == multiset(t)
    ensures PassesAsPure(t) ==> g == CardGroup(GROUP_STRAIGHT, t)
  {
    StraightLength(t, jokerPoint);
    hide Naturals, SortCards, Lowered, Chain, Gaps, JokersOf, Sorted, Rising, Dealt, FillNeed, PassesAsPure,
         StraightGroups, IsStraight;
    var h := Naturals(t, jokerPoint);
    StraightCases(t, jokerPoint);
    NaturalsAre(t, jokerPoint);
    NaturalsSorted(t, jokerPoint);
    var m := WildsOf(t, cards, jokers, jokerPoint);
    if h == [] {
      WildStraightFound(cards, jokers, jokerPoint, t, m);
      g := AllWildFound(cards, jokers, jokerPoint, t, m);
    } else {
      PointsFrom2(cards, t);
      ChainIsRising(h, jokerPoint);
      g := CardGroup(GROUP_STRAIGHT, t);
      if |m| == 0 {
        assert m == multiset{};
        SortedUnique(h, t);
        NaturalStraightPure(h, jokerPoint);
        PureReach(cards, jokers, jokerPoint, t);
      } else {
        NeedAtMost(h, |m|, jokerPoint);
        NaturalsReach(cards, jokers, jokerPoint, t, h, m);
      }
    }
  }

  lemma StraightLength(t: seq<Card>, jokerPoint: int)
    requires IsStraight(t, jokerPoint)
    ensures |t| >= 3
  {
  }

  /** Wild cards alone are no pure straight. */
  lemma WildStraightFound(cards: seq<Card>, jokers: seq<Card>, jokerPoint: int, t: seq<Card>, m: multiset<Card>)
    requires JokersOf(multiset(jokers), multiset(cards), jokerPoint)
    requires multiset(t) == m && m <= multiset(jokers)
    ensures !PassesAsPure(t)
  {
    hide PassesAsPure;
    JokersAreWild(jokers, multiset(cards), jokerPoint);
    WildPart(t, jokers, jokerPoint);
    WildNeverPure(t, jokerPoint);
  }

  lemma AllWildFound(cards: seq<Card>, jokers: seq<Card>, jokerPoint: int, t: seq<Card>, m: multiset<Card>)
    returns (g: CardGroup)
    requires multiset(t) == m && m <= multiset(jokers) && |t| >= 3
    ensures g in StraightGroups(cards, jokers, jokerPoint) && multiset(g.cards) == multiset(t)
  {
    assert |multiset(t)| == |t|;
    var w := WildChoice(jokers, m);
    var combines := AllCombines(jokers);
    var k :| 0 <= k < |combines| && combines[k] == w;
    g := CardGroup(GROUP_STRAIGHT, w);
    hide AllCombines, ColorsUpto;
    HasFlatMap(combines, JokersAlone(), k, g);
  }

  // ----- what is left costs no more

  lemma SameScore(a: seq<Card>, b: seq<Card>, jokerPoint: int)
    requires multiset(a) == multiset(b)
    ensures TotalScore(a, jokerPoint) == TotalScore(b, jokerPoint)
  {
    SortedScore(a, jokerPoint);
    SortedScore(b, jokerPoint);
    SortCardsSorted(a);
    SortCardsSorted(b);
    SortedUnique(SortCards(a), SortCards(b));
  }

  lemma ErasedScore(cards: seq<Card>, c: Card, jokerPoint: int)
    ensures TotalScore(Erased(cards, c), jokerPoint) <= TotalScore(cards, jokerPoint)
  {
    var i := Find(cards, c);
    if i < |cards| {
      assert cards == (cards[..i] + [c]) + cards[i + 1..];
      ScoreOfParts(cards[..i] + [c], cards[i + 1..], jokerPoint);
      ScoreOfParts(cards[..i], [c], jokerPoint);
      ScoreOfParts(cards[..i], cards[i + 1..], jokerPoint);
    }
  }

  lemma {:induction false} RemovedScore(cards: seq<Card>, group: seq<Card>, jokerPoint: int)
    ensures TotalScore(Removed(cards, group), jokerPoint) <= TotalScore(cards, jokerPoint)
  {
    hide Erased, TotalScore;
    if group != [] {
      RemovedScore(cards, group[..|group| - 1], jokerPoint);
      ErasedScore(Removed(cards, group[..|group| - 1]), group[|group| - 1], jokerPoint);
    }
  }

  lemma CompleteScore(groups: seq<CardGroup>, rest: seq<Card>, jokerPoint: int, first: bool, second: bool)
    ensures Complete(groups, rest, jokerPoint, first, second).score == TotalScore(rest, jokerPoint)
  {
    NothingScore(jokerPoint);
  }

  lemma ThirdScore(groups: seq<CardGroup>, cards2: seq<Card>, found: seq<CardGroup>, jokerPoint: int, g: CardGroup,
                   info: Info)
    requires info in WithThird(groups, cards2, found, jokerPoint)(g)
    ensures info.score <= TotalScore(Removed(cards2, g.cards), jokerPoint)
  {
    hide Removed, Complete, Within, TotalScore;
    var cards3 := Removed(cards2, g.cards);
    var more := Within(cards3, found);
    if cards3 == [] || more == [] {
      CompleteScore(groups + [g], cards3, jokerPoint, true, true);
    } else {
      var k := InFlatMap(more, WithFourth(groups + [g], cards3, jokerPoint), info);
      CompleteScore(groups + [g] + [more[k]], Removed(cards3, more[k].cards), jokerPoint, true, true);
      RemovedScore(cards3, more[k].cards, jokerPoint);
    }
  }

  lemma SecondScore(first: CardGroup, cards1: seq<Card>, jokers1: seq<Card>, jokerPoint: int, g: CardGroup, info: Info)
    requires info in WithSecond(first, cards1, jokers1, jokerPoint)(g)
    ensures info.score <= TotalScore(Removed(cards1, g.cards), jokerPoint)
  {
    hide Removed, Complete, TotalScore, WithThird, StraightGroups, SetGroups;
    var cards2, jokers2 := Removed(cards1, g.cards), Removed(jokers1, g.cards);
    var found := StraightGroups(cards2, jokers2, jokerPoint) + SetGroups(cards2, jokers2, jokerPoint);
    if cards2 == [] || found == [] {
      CompleteScore([first, g], cards2, jokerPoint, true, true);
    } else {
      var k := InFlatMap(found, WithThird([first, g], cards2, found, jokerPoint), info);
      ThirdScore([first, g], cards2, found, jokerPoint, found[k], info);
      RemovedScore(cards2, found[k].cards, jokerPoint);
    }
  }

  lemma FirstScore(hand: seq<Card>, jokers: seq<Card>, straights: seq<CardGroup>, jokerPoint: int, g: CardGroup,
                   info: Info)
    requires info in WithFirst(hand, jokers, straights, jokerPoint)(g)
    ensures info.score <= TotalScore(Removed(hand, g.cards), jokerPoint)
  {
    hide Removed, Complete, TotalScore, WithSecond, Within;
    var cards1, jokers1 := Removed(hand, g.cards), Removed(jokers, g.cards);
    var seconds := Within(cards1, straights);
    if seconds == [] {
      CompleteScore([g], cards1, jokerPoint, true, false);
    } else {
      var k := InFlatMap(seconds, WithSecond(g, cards1, jokers1, jokerPoint), info);
      SecondScore(g, cards1, jokers1, jokerPoint, seconds[k], info);
      RemovedScore(cards1, seconds[k].cards, jokerPoint);
    }
  }

  /** No combination costs more than the whole hand. */
  lemma InfoScore(hand: seq<Card>, jokerPoint: int, info: Info)
    requires info in AllInfos(hand, jokerPoint)
    ensures info.score <= TotalScore(hand, jokerPoint)
  {
    hide Removed, TotalScore, WithFirst, StraightGroups, PassingPure, WildCards;
    var jokers := WildCards(hand, jokerPoint);
    var straights := StraightGroups(hand, jokers, jokerPoint);
    var firsts := PassingPure(straights);
    if firsts != [] {
      var k := InFlatMap(firsts, WithFirst(hand, jokers, straights, jokerPoint), info);
      FirstScore(hand, jokers, straights, jokerPoint, firsts[k], info);
      RemovedScore(hand, firsts[k].cards, jokerPoint);
    }
  }

  // ----- following a plan

  /** A group by the rules: a straight, or a set. */
  ghost predicate ByRules(g: CardGroup, jokerPoint: int) {
    StraightGroup(g, jokerPoint) || (g.kind == GROUP_THREE_KIND && IsSet(SortCards(g.cards), jokerPoint))
  }

  lemma ByRulesSize(g: CardGroup, jokerPoint: int)
    requires ByRules(g, jokerPoint)
    ensures |g.cards| >= 3
  {
    hide Naturals;
    assert |SortCards(g.cards)| == |g.cards|;
  }

  lemma GroupIsFound(cards: seq<Card>, jokers: seq<Card>, jokerPoint: int, p: CardGroup) returns (g: CardGroup)
    requires Dealt(multiset(cards)) && JokersOf(multiset(jokers), multiset(cards), jokerPoint)
    requires ByRules(p, jokerPoint) && multiset(p.cards) <= multiset(cards)
    ensures g in StraightGroups(cards, jokers, jokerPoint) + SetGroups(cards, jokers, jokerPoint)
    ensures multiset(g.cards) == multiset(p.cards)
    ensures StraightGroup(p, jokerPoint) ==> g in StraightGroups(cards, jokers, jokerPoint)
    ensures StraightGroup(p, jokerPoint) && PassesAsPure(SortCards(p.cards)) ==> PassesAsPure(g.cards)
  {
    hide IsStraight, IsSet, PassesAsPure, Dealt, JokersOf, StraightGroups, SetGroups, SortCards;
    SortCardsSorted(p.cards);
    if StraightGroup(p, jokerPoint) {
      g := StraightsAreFound(cards, jokers, jokerPoint, SortCards(p.cards));
    } else {
      g := SetsAreFound(cards, jokers, jokerPoint, SortCards(p.cards));
    }
  }

  /** What removing a found group leaves, by the plan. */
  lemma PlanNext(cards: seq<Card>, g: CardGroup, p: CardGroup, rest: multiset<Card>)
    requires multiset(cards) == multiset(p.cards) + rest && multiset(g.cards) == multiset(p.cards)
    ensures multiset(Removed(cards, g.cards)) == rest
  {
    hide Removed;
    RemovedCount(cards, g.cards);
  }

  lemma NotEmpty(cards: seq<Card>, p: CardGroup, rest: multiset<Card>, jokerPoint: int)
    requires multiset(cards) == multiset(p.cards) + rest && ByRules(p, jokerPoint)
    ensures cards != [] && multiset(p.cards) <= multiset(cards)
  {
    ByRulesSize(p, jokerPoint);
    hide ByRules;
    assert |multiset(p.cards)| == |p.cards| && |multiset(cards)| == |cards|;
    assert |multiset(p.cards) + rest| == |multiset(p.cards)| + |rest|;
  }

  /** The rest of a plan behind its third group: nothing, or a fourth. */
  lemma FollowThird(groups: seq<CardGroup>, cards2: seq<Card>, found: seq<CardGroup>, jokers2: seq<Card>,
                    jokerPoint: int, g: CardGroup, plan: seq<CardGroup>, rest: seq<Card>) returns (info: Info)
    requires Dealt(multiset(cards2)) && JokersOf(multiset(jokers2), multiset(cards2), jokerPoint)
    requires found == StraightGroups(cards2, jokers2, jokerPoint) + SetGroups(cards2, jokers2, jokerPoint)
    requires g in found && |plan| <= 1 && (plan != [] ==> ByRules(plan[0], jokerPoint))
    requires multiset(cards2) == multiset(g.cards) + AllCards(plan) + multiset(rest)
    ensures info in WithThird(groups, cards2, found, jokerPoint)(g)
    ensures info.score <= TotalScore(rest, jokerPoint)
  {
    var cards3 := Removed(cards2, g.cards);
    var more := Within(cards3, found);
    hide Dealt, JokersOf, StraightGroups, SetGroups, Removed, Within, TotalScore, ByRules, Complete;
    PlanNext(cards2, g, g, AllCards(plan) + multiset(rest));
    ThirdGives(groups, cards2, found, jokerPoint, g);
    if plan == [] {
      info := WithThird(groups, cards2, found, jokerPoint)(g)[0];
      ThirdScore(groups, cards2, found, jokerPoint, g, info);
      SameScore(cards3, rest, jokerPoint);
    } else {
      var p := plan[0];
      assert plan[..0] == [] && AllCards(plan) == multiset(p.cards);
      NotEmpty(cards3, p, multiset(rest), jokerPoint);
      var f := GroupIsFound(cards2, jokers2, jokerPoint, p);
      InWithin(cards3, found, f);
      var k :| 0 <= k < |more| && more[k] == f;
      var cards4 := Removed(cards3, f.cards);
      info := Complete(groups + [g] + [f], cards4, jokerPoint, true, true);
      HasFlatMap(more, WithFourth(groups + [g], cards3, jokerPoint), k, info);
      CompleteScore(groups + [g] + [f], cards4, jokerPoint, true, true);
      PlanNext(cards3, f, p, multiset(rest));
      SameScore(cards4, rest, jokerPoint);
    }
  }

  /** Behind its second group. */
  lemma FollowSecond(first: CardGroup, cards1: seq<Card>, jokers1: seq<Card>, jokerPoint: int, g: CardGroup,
                     plan: seq<CardGroup>, rest: seq<Card>) returns (info: Info)
    requires Dealt(multiset(cards1)) && JokersOf(multiset(jokers1), multiset(cards1), jokerPoint)
    requires |plan| <= 2 && forall p :: p in plan ==> ByRules(p, jokerPoint)
    requires multiset(cards1) == multiset(g.cards) + AllCards(plan) + multiset(rest)
    ensures info in WithSecond(first, cards1, jokers1, jokerPoint)(g)
    ensures info.score <= TotalScore(rest, jokerPoint)
  {
    var cards2, jokers2 := Removed(cards1, g.cards), Removed(jokers1, g.cards);
    var found := StraightGroups(cards2, jokers2, jokerPoint) + SetGroups(cards2, jokers2, jokerPoint);
    hide Dealt, JokersOf, StraightGroups, SetGroups, Removed, TotalScore, ByRules, Complete, WithThird, AllCards;
    PlanNext(cards1, g, g, AllCards(plan) + multiset(rest));
    JokersNext(cards1, jokers1, g.cards, jokerPoint);
    DealtPart(multiset(cards1), multiset(cards2));
    SecondGives(first, cards1, jokers1, jokerPoint, g);
    if plan == [] {
      NoCards();
      info := WithSecond(first, cards1, jokers1, jokerPoint)(g)[0];
      SecondScore(first, cards1, jokers1, jokerPoint, g, info);
      SameScore(cards2, rest, jokerPoint);
    } else {
      var p := plan[0];
      PlanHead(plan);
      var left := AllCards(plan[1..]) + multiset(rest);
      assert multiset(cards2) == multiset(p.cards) + left;
      NotEmpty(cards2, p, left, jokerPoint);
      var f := GroupIsFound(cards2, jokers2, jokerPoint, p);
      var k :| 0 <= k < |found| && found[k] == f;
      info := FollowThird([first, g], cards2, found, jokers2, jokerPoint, f, plan[1..], rest);
      HasFlatMap(found, WithThird([first, g], cards2, found, jokerPoint), k, info);
    }
  }

  lemma NoCards()
    ensures AllCards([]) == multiset{}
  {
  }

  lemma {:induction false} PlanHead(plan: seq<CardGroup>)
    requires plan != []
    ensures AllCards(plan) == multiset(plan[0].cards) + AllCards(plan[1..])
  {
    hide AllCards;
    NoCards();
    var init, last := plan[..|plan| - 1], plan[|plan| - 1];
    assert plan == init + [last];
    AllCardsAppend(init, last);
    if init == [] {
      assert plan[1..] == [];
    } else {
      PlanHead(init);
      assert plan[1..] == init[1..] + [last] && plan[0] == init[0];
      AllCardsAppend(init[1..], last);
      SumsRegroup(multiset(plan[0].cards), AllCards(init[1..]), multiset(last.cards));
    }
  }

  lemma SumsRegroup(x: multiset<Card>, y: multiset<Card>, z: multiset<Card>)
    ensures (x + y) + z == x + (y + z)
  {
  }

  /** A plan for the hand: a pure straight, a straight next, two more groups at most, all by the rules. */
  ghost predicate Plan(plan: seq<CardGroup>, jokerPoint: int) {
    && 1 <= |plan| <= 4 && (forall p :: p in plan ==> ByRules(p, jokerPoint))
    && StraightGroup(plan[0], jokerPoint) && PureGroup(plan[0])
    && (|plan| >= 2 ==> StraightGroup(plan[1], jokerPoint))
  }

  /** The search reaches a combination that costs no more than what the plan leaves loose, unless the plan
      is the whole hand in one straight. */
  lemma PlanFollowed(hand: seq<Card>, jokerPoint: int, plan: seq<CardGroup>, rest: seq<Card>) returns (info: Info)
    requires Dealt(multiset(hand)) && Plan(plan, jokerPoint)
    requires multiset(hand) == AllCards(plan) + multiset(rest) && (|plan| >= 2 || rest != [])
    ensures info in AllInfos(hand, jokerPoint) && info.score <= TotalScore(rest, jokerPoint)
  {
    var jokers := WildCards(hand, jokerPoint);
    var straights := StraightGroups(hand, jokers, jokerPoint);
    var firsts := PassingPure(straights);
    var p1 := plan[0];
    assert p1 in plan;
    hide Dealt, StraightGroups, Removed, TotalScore, ByRules, WithFirst, AllCards, PassingPure, WildCards,
         StraightGroup, PureGroup, JokersOf;
    PlanHead(plan);
    var left := AllCards(plan[1..]) + multiset(rest);
    NotEmpty(hand, p1, left, jokerPoint);
    var k := PureIsFirst(hand, jokerPoint, p1);
    WildJokers(hand, jokerPoint);
    PlanNext(hand, firsts[k], p1, left);
    info := FollowFirst(hand, jokers, straights, jokerPoint, firsts[k], plan, rest);
    HasFlatMap(firsts, WithFirst(hand, jokers, straights, jokerPoint), k, info);
  }

  lemma PureIsFirst(hand: seq<Card>, jokerPoint: int, p: CardGroup) returns (k: nat)
    requires Dealt(multiset(hand)) && multiset(p.cards) <= multiset(hand)
    requires StraightGroup(p, jokerPoint) && PureGroup(p)
    ensures var firsts := PassingPure(StraightGroups(hand, WildCards(hand, jokerPoint), jokerPoint));
            k < |firsts| && multiset(firsts[k].cards) == multiset(p.cards)
  {
    hide Dealt, JokersOf, StraightGroups, PassingPure, WildCards, PassesAsPure, StraightGroup;
    var jokers := WildCards(hand, jokerPoint);
    var straights := StraightGroups(hand, jokers, jokerPoint);
    WildJokers(hand, jokerPoint);
    var f := GroupIsFound(hand, jokers, jokerPoint, p);
    InPassingPure(straights, f);
    k :| 0 <= k < |PassingPure(straights)| && PassingPure(straights)[k] == f;
  }

  lemma FollowFirst(hand: seq<Card>, jokers: seq<Card>, straights: seq<CardGroup>, jokerPoint: int, f: CardGroup,
                    plan: seq<CardGroup>, rest: seq<Card>) returns (info: Info)
    requires Dealt(multiset(hand)) && JokersOf(multiset(jokers), multiset(hand), jokerPoint)
    requires straights == StraightGroups(hand, jokers, jokerPoint) && Plan(plan, jokerPoint)
    requires multiset(Removed(hand, f.cards)) == AllCards(plan[1..]) + multiset(rest)
    requires |plan| >= 2 || rest != []
    ensures info in WithFirst(hand, jokers, straights, jokerPoint)(f)
    ensures info.score <= TotalScore(rest, jokerPoint)
  {
    var cards1, jokers1 := Removed(hand, f.cards), Removed(jokers, f.cards);
    var seconds := Within(cards1, straights);
    hide Dealt, JokersOf, StraightGroups, Removed, TotalScore, ByRules, AllCards, Within, WithSecond, Complete,
         StraightGroup, PureGroup;
    RemovedCount(hand, f.cards);
    JokersNext(hand, jokers, f.cards, jokerPoint);
    DealtPart(multiset(hand), multiset(cards1));
    assert |multiset(cards1)| == |cards1| && |multiset(rest)| == |rest|;
    if |plan| == 1 {
      NoCards();
      assert plan[1..] == [];
      FirstGives(hand, jokers, straights, jokerPoint, f);
      info := WithFirst(hand, jokers, straights, jokerPoint)(f)[0];
      FirstScore(hand, jokers, straights, jokerPoint, f, info);
      SameScore(cards1, rest, jokerPoint);
    } else {
      var p2, tail := plan[1], plan[2..];
      assert p2 in plan && plan[1..][0] == p2 && plan[1..][1..] == tail;
      PlanHead(plan[1..]);
      var left := AllCards(tail) + multiset(rest);
      NotEmpty(cards1, p2, left, jokerPoint);
      var g := GroupIsFound(hand, jokers, jokerPoint, p2);
      InWithin(cards1, straights, g);
      var k :| 0 <= k < |seconds| && seconds[k] == g;
      info := FollowSecond(f, cards1, jokers1, jokerPoint, g, tail, rest);
      HasFlatMap(seconds, WithSecond(f, cards1, jokers1, jokerPoint), k, info);
    }
  }

  // ----- from a showing to a plan

  /** The groups that are not loose cards. */
  ghost function MadeOnes(groups: seq<CardGroup>): seq<CardGroup> {
    if groups == [] then []
    else
      var g := groups[|groups| - 1];
      MadeOnes(groups[..|groups| - 1]) + (if g.kind == GROUP_INVALID then [] else [g])
  }

  /** The loose cards. */
  ghost function LooseOnes(groups: seq<CardGroup>): seq<Card> {
    if groups == [] then []
    else
      var g := groups[|groups| - 1];
      LooseOnes(groups[..|groups| - 1]) + (if g.kind == GROUP_INVALID then g.cards else [])
  }

  lemma {:induction false} PartedCards(groups: seq<CardGroup>)
    ensures AllCards(groups) == AllCards(MadeOnes(groups)) + multiset(LooseOnes(groups))
  {
    if groups != [] {
      var init, g := groups[..|groups| - 1], groups[|groups| - 1];
      PartedCards(init);
      AllCardsAppend(MadeOnes(init), g);
      if g.kind == GROUP_INVALID {
        assert MadeOnes(groups) == MadeOnes(init) && LooseOnes(groups) == LooseOnes(init) + g.cards;
      } else {
        assert MadeOnes(groups) == MadeOnes(init) + [g] && LooseOnes(groups) == LooseOnes(init);
      }
    }
  }

  lemma {:induction false} PartedMembers(groups: seq<CardGroup>)
    ensures forall g :: g in MadeOnes(groups) <==> g in groups && g.kind != GROUP_INVALID
  {
    if groups != [] {
      var init, g := groups[..|groups| - 1], groups[|groups| - 1];
      PartedMembers(init);
      assert groups == init + [g];
    }
  }

  lemma {:induction false} PartedCounts(groups: seq<CardGroup>)
    ensures Straights(MadeOnes(groups)) == Straights(groups) && Pures(MadeOnes(groups)) == Pures(groups)
  {
    hide PassesAsPure, SortCards;
    if groups != [] {
      var init, g := groups[..|groups| - 1], groups[|groups| - 1];
      PartedCounts(init);
      assert MadeOnes(init) + [] == MadeOnes(init) && (MadeOnes(init) + [g])[..|MadeOnes(init)|] == MadeOnes(init);
    }
  }

  lemma {:induction false} PartedScore(groups: seq<CardGroup>, jokerPoint: int)
    ensures LooseScore(groups, jokerPoint) == TotalScore(LooseOnes(groups), jokerPoint)
  {
    hide SortCards, TotalScore;
    if groups != [] {
      var init, g := groups[..|groups| - 1], groups[|groups| - 1];
      PartedScore(init, jokerPoint);
      ScoreOfParts(LooseOnes(init), g.cards, jokerPoint);
      SortedScore(g.cards, jokerPoint);
      assert LooseOnes(init) + [] == LooseOnes(init);
    } else {
      NothingScore(jokerPoint);
    }
  }

  ghost function Without(groups: seq<CardGroup>, i: nat): (r: seq<CardGroup>)
    requires i < |groups|
    ensures |r| == |groups| - 1 && forall g :: g in r ==> g in groups
  {
    groups[..i] + groups[i + 1..]
  }

  lemma WithoutLast(groups: seq<CardGroup>, i: nat)
    requires i < |groups| - 1
    ensures Without(groups, i) == Without(groups[..|groups| - 1], i) + [groups[|groups| - 1]]
  {
  }

  lemma {:induction false} CardsTakenOut(groups: seq<CardGroup>, i: nat)
    requires i < |groups|
    ensures AllCards(groups) == multiset(groups[i].cards) + AllCards(Without(groups, i))
  {
    var init, last := groups[..|groups| - 1], groups[|groups| - 1];
    assert groups == init + [last];
    AllCardsAppend(init, last);
    if i == |init| {
      assert Without(groups, i) == init;
    } else {
      CardsTakenOut(init, i);
      WithoutLast(groups, i);
      hide Without, AllCards;
      AllCardsAppend(Without(init, i), last);
      SumsRegroup(multiset(groups[i].cards), AllCards(Without(init, i)), multiset(last.cards));
    }
  }

  lemma {:induction false} StraightsTakenOut(groups: seq<CardGroup>, i: nat)
    requires i < |groups|
    ensures Straights(groups)
         == Straights(Without(groups, i)) + (if groups[i].kind == GROUP_STRAIGHT then 1 else 0)
  {
    var init, last := groups[..|groups| - 1], groups[|groups| - 1];
    assert groups == init + [last];
    StraightsAppend(init, last);
    if i == |init| {
      assert Without(groups, i) == init;
    } else {
      StraightsTakenOut(init, i);
      WithoutLast(groups, i);
      hide Without, Straights;
      StraightsAppend(Without(init, i), last);
    }
  }

  lemma StraightsAppend(groups: seq<CardGroup>, g: CardGroup)
    ensures Straights(groups + [g]) == Straights(groups) + (if g.kind == GROUP_STRAIGHT then 1 else 0)
  {
    assert (groups + [g])[..|groups|] == groups;
  }

  lemma {:induction false} SomePure(groups: seq<CardGroup>) returns (i: nat)
    requires Pures(groups) >= 1
    ensures i < |groups| && PureGroup(groups[i])
  {
    hide PureGroup;
    var last := |groups| - 1;
    if PureGroup(groups[last]) { i := last; } else { i := SomePure(groups[..last]); }
  }

  lemma {:induction false} SomeStraight(groups: seq<CardGroup>) returns (i: nat)
    requires Straights(groups) >= 1
    ensures i < |groups| && groups[i].kind == GROUP_STRAIGHT
  {
    var last := |groups| - 1;
    if groups[last].kind == GROUP_STRAIGHT { i := last; } else { i := SomeStraight(groups[..last]); }
  }

  lemma {:induction false} OneStraight(groups: seq<CardGroup>, i: nat)
    requires i < |groups| && groups[i].kind == GROUP_STRAIGHT
    ensures Straights(groups) >= 1
  {
    if i < |groups| - 1 {
      OneStraight(groups[..|groups| - 1], i);
    }
  }

  lemma ByRulesKind(g: CardGroup, jokerPoint: int)
    requires ByRules(g, jokerPoint)
    ensures g.kind == GROUP_STRAIGHT <==> StraightGroup(g, jokerPoint)
    ensures g.kind == GROUP_STRAIGHT || g.kind == GROUP_THREE_KIND
    ensures PureGroup(g) ==> g.kind == GROUP_STRAIGHT
  {
  }

  lemma {:induction false} RulesHold(groups: seq<CardGroup>, jokerPoint: int)
    requires forall g :: g in groups ==> ByRules(g, jokerPoint)
    ensures |AllCards(groups)| >= 3 * |groups|
  {
    hide ByRules;
    if groups != [] {
      var g := groups[|groups| - 1];
      RulesHold(groups[..|groups| - 1], jokerPoint);
      ByRulesSize(g, jokerPoint);
      assert |multiset(g.cards)| == |g.cards|;
    }
  }

  /** Groups that may be shown, put in the order of a plan. */
  lemma PlanOf(made: seq<CardGroup>, jokerPoint: int) returns (plan: seq<CardGroup>)
    requires 1 <= |made| <= 4 && (forall g :: g in made ==> ByRules(g, jokerPoint)) && Pures(made) >= 1
    requires (exists g :: g in made && g.kind == GROUP_THREE_KIND) ==> Straights(made) >= 2
    ensures Plan(plan, jokerPoint) && AllCards(plan) == AllCards(made) && |plan| == |made|
  {
    hide ByRules, PureGroup, StraightGroup, AllCards, Straights, Pures;
    var i := SomePure(made);
    var first, others := made[i], Without(made, i);
    assert first in made;
    ByRulesKind(first, jokerPoint);
    CardsTakenOut(made, i);
    StraightsTakenOut(made, i);
    if others == [] {
      plan := [first];
      PlanHead(plan);
      assert plan[1..] == others;
    } else {
      assert others[0] in others && others[0] in made;
      ByRulesKind(others[0], jokerPoint);
      if others[0].kind == GROUP_STRAIGHT { OneStraight(others, 0); }
      var j := SomeStraight(others);
      assert others[j] in others && others[j] in made;
      ByRulesKind(others[j], jokerPoint);
      CardsTakenOut(others, j);
      plan := InOrder(first, others[j], Without(others, j));
    }
  }

  lemma InOrder(first: CardGroup, second: CardGroup, tail: seq<CardGroup>) returns (plan: seq<CardGroup>)
    ensures plan == [first, second] + tail
    ensures AllCards(plan) == multiset(first.cards) + (multiset(second.cards) + AllCards(tail))
  {
    plan := [first, second] + tail;
    PlanHead(plan);
    PlanHead(plan[1..]);
    assert plan[1..][1..] == tail;
  }

  // ----- one straight of six cards or more is two

  lemma FitsPart(part: multiset<Card>, all: multiset<Card>, size: nat)
    requires Fits(all, size) && part <= all
    ensures Fits(part, size)
  {
    var lo: int :| InWindow(all, lo, size);
    forall c | c in part
      ensures c in all && part[c] == 1
    {
      assert 0 < part[c] <= all[c] == 1;
    }
    assert InWindow(part, lo, size);
  }

  lemma ConsecutiveFits(run: seq<Card>, size: nat)
    requires Consecutive(run) && |run| <= size
    ensures Fits(multiset(run), size)
  {
    if run == [] {
      assert InWindow(multiset(run), 0, size);
    } else {
      forall i, j | 0 <= i < j < |run|
        ensures run[i].point < run[j].point
      {
        ConsecutivePoints(run, i);
        ConsecutivePoints(run, j);
      }
      ConsecutivePoints(run, |run| - 1);
      ChainFits(run, size);
    }
  }

  /** The natural cards of t, by themselves and with the rest. */
  lemma StraightByNaturals(t: seq<Card>, jokerPoint: int)
    requires |t| >= 3
    requires var h := Naturals(t, jokerPoint); Fits(multiset(h), |t|) || Fits(multiset(Lowered(h)), |t|)
    ensures IsStraight(SortCards(t), jokerPoint)
  {
    hide Fits, Lowered, SortCards, IsStraight, Naturals, WildCards, Wild;
    var h, w := Naturals(t, jokerPoint), WildCards(t, jokerPoint);
    forall c
      ensures multiset(h)[c] + multiset(w)[c] == multiset(t)[c]
    {
      NaturalsCount(t, jokerPoint, c);
      WildCount(t, jokerPoint, c);
    }
    assert multiset(h + w) == multiset(h) + multiset(w) == multiset(t);
    assert |multiset(h + w)| == |h + w| && |multiset(t)| == |t|;
    NaturalsAre(t, jokerPoint);
    forall c | c in w
      ensures Wild(c, jokerPoint)
    {
      WildCount(t, jokerPoint, c);
      assert c in multiset(w);
    }
    StraightOf(h, w, jokerPoint);
    SortCardsSorted(h + w);
    SortCardsSorted(t);
    SortedUnique(SortCards(h + w), SortCards(t));
  }

  /** The naturals are no more than those of the part that is not all wild. */
  lemma NaturalsWithin(run: seq<Card>, extra: seq<Card>, jokerPoint: int)
    requires AllWild(extra, jokerPoint)
    ensures multiset(Naturals(run + extra, jokerPoint)) <= multiset(run)
  {
    hide Naturals;
    forall c
      ensures multiset(Naturals(run + extra, jokerPoint))[c] <= multiset(run)[c]
    {
      NaturalsCount(run + extra, jokerPoint, c);
      assert multiset(run + extra)[c] == multiset(run)[c] + multiset(extra)[c];
    }
  }

  lemma RunIsStraight(run: seq<Card>, extra: seq<Card>, jokerPoint: int)
    requires Consecutive(run) && AllWild(extra, jokerPoint) && |run| + |extra| >= 3
    ensures IsStraight(SortCards(run + extra), jokerPoint)
  {
    hide Fits, Naturals, IsStraight, Consecutive, AllWild;
    ConsecutiveFits(run, |run| + |extra|);
    NaturalsWithin(run, extra, jokerPoint);
    FitsPart(multiset(Naturals(run + extra, jokerPoint)), multiset(run), |run| + |extra|);
    StraightByNaturals(run + extra, jokerPoint);
  }

  lemma LoweredPart(h: seq<Card>, front: seq<Card>, ace: Card)
    requires multiset(h) <= multiset(front + [ace]) && ace.point == ACE
    requires forall c :: c in front ==> 1 < c.point < ACE
    ensures multiset(Lowered(h)) <= multiset([Card(ace.color, 1)] + front)
  {
    forall d
      ensures multiset(Lowered(h))[d] <= multiset([Card(ace.color, 1)] + front)[d]
    {
      LoweredCount(h, d);
      var up := Card(d.color, ACE);
      assert multiset(h)[d] <= multiset(front + [ace])[d] == multiset(front)[d] + multiset([ace])[d];
      assert multiset(h)[up] <= multiset(front + [ace])[up] == multiset(front)[up] + multiset([ace])[up];
      assert d.point == 1 ==> d !in front;
      assert up !in front;
      assert multiset([Card(ace.color, 1)] + front)[d] == multiset([Card(ace.color, 1)])[d] + multiset(front)[d];
    }
  }

  /** From the two on, with an ace for the one, and wild cards. */
  lemma LowRunIsStraight(front: seq<Card>, ace: Card, extra: seq<Card>, jokerPoint: int)
    requires Consecutive([Card(ace.color, 1)] + front) && ace.point == ACE && AllWild(extra, jokerPoint)
    requires |front| + 1 + |extra| >= 3 && forall c :: c in front ==> 1 < c.point < ACE
    ensures IsStraight(SortCards(front + [ace] + extra), jokerPoint)
  {
    hide Fits, Naturals, IsStraight, Consecutive, AllWild, Lowered;
    var t := front + [ace] + extra;
    var h := Naturals(t, jokerPoint);
    NaturalsWithin(front + [ace], extra, jokerPoint);
    LoweredPart(h, front, ace);
    var low := [Card(ace.color, 1)] + front;
    ConsecutiveFits(low, |t|);
    FitsPart(multiset(Lowered(h)), multiset(low), |t|);
    StraightByNaturals(t, jokerPoint);
  }

  /** Behind an ace that ends the test there are wild cards only. */
  lemma BehindAceWild(s: seq<Card>, n: nat, jokerPoint: int)
    requires Sorted(s) && IsStraight(s, jokerPoint) && AceAt(s, n)
    ensures AllWild(s[n + 1..], jokerPoint)
  {
    hide IsStraight, Naturals, Chain, Gaps, SortCards, Lowered;
    if jokerPoint != ACE && n + 1 < |s| {
      StraightCases(s, jokerPoint);
      NaturalsPrefix(s, jokerPoint, n + 2);
      NaturalsSplit(s, jokerPoint, n);
      NaturalsSplit(s, jokerPoint, n + 1);
      var front := Naturals(s[..n], jokerPoint);
      ChainPrefix(Naturals(s[..n + 2], jokerPoint), Naturals(s, jokerPoint));
      if !Wild(s[n + 1], jokerPoint) {
        assert Upto(s[n], s[n + 1]);
        assert Naturals(s[..n + 2], jokerPoint) == (front + [s[n]]) + [s[n + 1]];
        ChainAppend(front + [s[n]], s[n + 1]);
        assert false;
      }
    }
    forall c | c in s[n + 1..]
      ensures Wild(c, jokerPoint)
    {
      var i :| 0 <= i < |s| - n - 1 && s[n + 1..][i] == c;
      assert Upto(s[n], s[n + 1 + i]);
      if n + 1 + i > n + 1 { assert Upto(s[n + 1], s[n + 1 + i]); }
    }
  }

  /** A pure straight of six cards or more, cut into a pure straight of three and a straight. */
  lemma TwoOfOne(s: seq<Card>, jokerPoint: int) returns (a: seq<Card>, b: seq<Card>)
    requires |s| >= 6 && Sorted(s) && PassesAsPure(s) && IsStraight(s, jokerPoint)
    ensures multiset(s) == multiset(a) + multiset(b)
    ensures PassesAsPure(SortCards(a)) && IsStraight(SortCards(a), jokerPoint) && IsStraight(SortCards(b), jokerPoint)
  {
    hide IsStraight, SortCards, Consecutive, AceAt, Sorted, AllWild;
    if Consecutive(s) {
      a, b := s[..3], s[3..];
      CutConsecutive(s, jokerPoint);
      TwoParts(s, 3);
    } else {
      var n :| AceAt(s, n);
      AceInside(s, n);
      BehindAceWild(s, n, jokerPoint);
      if n == 1 {
        a, b := s[..3], s[3..];
        CutAtAce(s, jokerPoint);
        TwoParts(s, 3);
      } else {
        a, b := [s[0], s[1]] + [s[n]], s[2..n] + s[n + 1..];
        CutBelowAce(s, n, jokerPoint);
        FourParts(s, n);
      }
    }
  }

  lemma AceInside(s: seq<Card>, n: int)
    requires AceAt(s, n)
    ensures 1 <= n < |s|
  {
  }

  lemma TwoParts(s: seq<Card>, n: nat)
    requires n <= |s|
    ensures multiset(s) == multiset(s[..n]) + multiset(s[n..])
  {
    assert s == s[..n] + s[n..];
  }

  lemma FourParts(s: seq<Card>, n: int)
    requires 2 <= n < |s|
    ensures multiset(s) == multiset([s[0], s[1]] + [s[n]]) + multiset(s[2..n] + s[n + 1..])
  {
    assert s == [s[0], s[1]] + s[2..n] + [s[n]] + s[n + 1..];
  }

  lemma CutConsecutive(s: seq<Card>, jokerPoint: int)
    requires |s| >= 6 && Sorted(s) && Consecutive(s)
    ensures PassesAsPure(SortCards(s[..3])) && IsStraight(SortCards(s[..3]), jokerPoint)
    ensures IsStraight(SortCards(s[3..]), jokerPoint)
  {
    hide SortCards, IsStraight, Sorted;
    FirstThreePure(s) by { assert PassesAsPure(s); }
    SortedStays(s[..3]);
    assert s[..3] + [] == s[..3] && s[3..] + [] == s[3..];
    assert forall i :: 0 <= i < |s| - 3 ==> s[3..][i] == s[i + 3];
    RunIsStraight(s[..3], [], jokerPoint);
    RunIsStraight(s[3..], [], jokerPoint);
  }

  lemma WildTail(w: seq<Card>, part: seq<Card>, jokerPoint: int)
    requires AllWild(w, jokerPoint) && forall c :: c in part ==> c in w
    ensures AllWild(part, jokerPoint)
  {
  }

  /** Two, ace and wild cards. */
  lemma CutAtAce(s: seq<Card>, jokerPoint: int)
    requires |s| >= 6 && Sorted(s) && AceAt(s, 1) && AllWild(s[2..], jokerPoint)
    ensures PassesAsPure(SortCards(s[..3])) && IsStraight(SortCards(s[..3]), jokerPoint)
    ensures IsStraight(SortCards(s[3..]), jokerPoint)
  {
    hide SortCards, IsStraight, Sorted, AllWild;
    FirstThreePure(s) by { assert PassesAsPure(s); }
    SortedStays(s[..3]);
    assert s[..3] == [s[0]] + [s[1]] + [s[2]] && s[2] == s[2..][0];
    WildTail(s[2..], [s[2]], jokerPoint);
    WildTail(s[2..], s[3..], jokerPoint) by { assert s[3..] == s[2..][1..]; }
    LowRunIsStraight([s[0]], s[1], [s[2]], jokerPoint);
    assert [] + s[3..] == s[3..];
    RunIsStraight([], s[3..], jokerPoint);
  }

  /** Two, three and the ace; the cards between, with the wild ones behind. */
  lemma CutBelowAce(s: seq<Card>, n: int, jokerPoint: int)
    requires |s| >= 6 && Sorted(s) && n >= 2 && AceAt(s, n) && AllWild(s[n + 1..], jokerPoint)
    ensures var a := [s[0], s[1]] + [s[n]];
            PassesAsPure(SortCards(a)) && IsStraight(SortCards(a), jokerPoint)
    ensures IsStraight(SortCards(s[2..n] + s[n + 1..]), jokerPoint)
  {
    hide SortCards, IsStraight, AllWild, Consecutive;
    var a := [s[0], s[1]] + [s[n]];
    var low := [Card(s[n].color, 1)] + [s[0], s[1]];
    TwoThreeAce(s, n);
    SortedStays(a);
    assert a + [] == a && [s[0], s[1]] + [s[n]] + [] == a;
    NoneWild(jokerPoint);
    LowRunIsStraight([s[0], s[1]], s[n], [], jokerPoint);
    RunIsStraight(s[2..n], s[n + 1..], jokerPoint);
  }

  /** The cards around an ace that ends the test behind two consecutive cards or more. */
  lemma TwoThreeAce(s: seq<Card>, n: int)
    requires Sorted(s) && n >= 2 && AceAt(s, n)
    ensures s[0].point == 2 && s[1].point == 3 && s[n].point == ACE
    ensures Consecutive([Card(s[n].color, 1)] + [s[0], s[1]]) && Consecutive(s[2..n])
    ensures Sorted([s[0], s[1]] + [s[n]]) && PassesAsPure([s[0], s[1]] + [s[n]])
  {
    var run := s[..n];
    assert run[0] == s[0] && run[1] == s[1] && run[n - 1] == s[n - 1];
    RunColor(run, n - 1);
    assert Follows(run[0], run[1]) && run[1].point == 3;
    var a := [s[0], s[1]] + [s[n]];
    assert a[..2] == [s[0], s[1]] && a[2] == s[n];
    assert AceAt(a, 2);
    assert forall i :: 0 <= i < n - 2 ==> s[2..n][i] == run[i + 2];
  }

  lemma NoneWild(jokerPoint: int)
    ensures AllWild([], jokerPoint)
  {
  }

  lemma {:induction false} RunColor(run: seq<Card>, i: nat)
    requires Consecutive(run) && i < |run|
    ensures run[i].color == run[0].color
  {
    if i > 0 {
      RunColor(run, i - 1);
      assert Follows(run[i - 1], run[i]);
    }
  }

  // ----- no showing costs less

  /** The sets among the groups are sets. */
  ghost predicate RealSets(groups: seq<CardGroup>, jokerPoint: int) {
    forall g :: g in groups && g.kind == GROUP_THREE_KIND ==> IsSet(SortCards(g.cards), jokerPoint)
  }

  lemma ShownByRules(groups: seq<CardGroup>, jokerPoint: int)
    requires Shows(groups, jokerPoint) && RealSets(groups, jokerPoint)
    ensures forall g :: g in MadeOnes(groups) ==> ByRules(g, jokerPoint)
    ensures MadeOnes(groups) != [] ==> Pures(MadeOnes(groups)) >= 1
    ensures (exists g :: g in MadeOnes(groups) && g.kind == GROUP_THREE_KIND) ==> Straights(MadeOnes(groups)) >= 2
  {
    PartedMembers(groups);
    PartedCounts(groups);
    hide IsStraight, IsSet, PassesAsSet, SortCards, MadeOnes, Pures, Straights;
    if MadeOnes(groups) != [] { assert MadeOnes(groups)[0] in groups; }
  }

  /** One straight that is a whole hand of six cards or more makes a plan of two. */
  lemma PlanOfOne(p: CardGroup, jokerPoint: int) returns (plan: seq<CardGroup>)
    requires StraightGroup(p, jokerPoint) && PureGroup(p) && |p.cards| >= 6
    ensures Plan(plan, jokerPoint) && |plan| == 2 && AllCards(plan) == multiset(p.cards)
  {
    hide IsStraight, PassesAsPure, SortCards;
    SortCardsSorted(p.cards);
    var a, b := TwoOfOne(SortCards(p.cards), jokerPoint);
    var g, h := CardGroup(GROUP_STRAIGHT, a), CardGroup(GROUP_STRAIGHT, b);
    plan := InOrder(g, h, []);
    NoCards();
    assert plan == [g, h];
  }

  /** A way to show the hand that the rules accept and whose sets are sets. A single straight that is the
      whole hand must have six cards, as the search passes over a group that leaves nothing. */
  ghost predicate Showing(groups: seq<CardGroup>, hand: seq<Card>, jokerPoint: int) {
    && AllCards(groups) == multiset(hand) && Shows(groups, jokerPoint) && RealSets(groups, jokerPoint)
    && (|hand| >= 6 || |MadeOnes(groups)| != 1 || LooseOnes(groups) != [])
  }

  /** For every such way the search reaches a combination that costs no more. */
  lemma LeastOfShowings(hand: seq<Card>, jokerPoint: int, groups: seq<CardGroup>) returns (info: Info)
    requires Dealt(multiset(hand)) && |hand| <= 14 && AllInfos(hand, jokerPoint) != []
    requires Showing(groups, hand, jokerPoint)
    ensures info in AllInfos(hand, jokerPoint) && info.score <= LooseScore(groups, jokerPoint)
  {
    hide AllInfos, Dealt, Shows, RealSets, ByRules, AllCards, LooseScore, MadeOnes, LooseOnes, Pures, Straights, Plan,
         TotalScore;
    var made, rest := MadeOnes(groups), LooseOnes(groups);
    PartedCards(groups);
    PartedScore(groups, jokerPoint);
    ShownByRules(groups, jokerPoint);
    if made == [] {
      NoCards();
      info := AllInfos(hand, jokerPoint)[0];
      InfoScore(hand, jokerPoint, info);
      SameScore(hand, rest, jokerPoint);
    } else {
      RulesHold(made, jokerPoint);
      assert |AllCards(made) + multiset(rest)| == |AllCards(made)| + |multiset(rest)|;
      assert |multiset(hand)| == |hand|;
      var plan := PlanOf(made, jokerPoint);
      if |plan| == 1 && rest == [] {
        OneGroup(plan, jokerPoint);
        assert |multiset(plan[0].cards)| == |plan[0].cards|;
        plan := PlanOfOne(plan[0], jokerPoint);
      }
      info := PlanFollowed(hand, jokerPoint, plan, rest);
    }
  }

  lemma OneGroup(plan: seq<CardGroup>, jokerPoint: int)
    requires Plan(plan, jokerPoint) && |plan| == 1
    ensures StraightGroup(plan[0], jokerPoint) && PureGroup(plan[0]) && AllCards(plan) == multiset(plan[0].cards)
  {
    PlanHead(plan);
    NoCards();
    assert plan[1..] == [];
  }

  /** What is least among the combinations is least among all ways to show the hand. */
  lemma LeastShown(hand: seq<Card>, jokerPoint: int, score: nat)
    requires Dealt(multiset(hand)) && |hand| <= 14 && AllInfos(hand, jokerPoint) != []
    requires forall info :: info in AllInfos(hand, jokerPoint) ==> score <= info.score
    ensures forall groups :: Showing(groups, hand, jokerPoint) ==> score <= LooseScore(groups, jokerPoint)
  {
    hide AllInfos, Dealt, Showing, LooseScore;
    forall groups | Showing(groups, hand, jokerPoint)
      ensures score <= LooseScore(groups, jokerPoint)
    {
      var info := LeastOfShowings(hand, jokerPoint, groups);
    }
  }

  lemma MadeReal(g: CardGroup, m: multiset<Card>, jokerPoint: int)
    requires Made(g, m, jokerPoint) && g.kind == GROUP_THREE_KIND && |g.cards| <= 4
    ensures IsSet(SortCards(g.cards), jokerPoint)
  {
    hide IsSet, IsStraight, SortCards, PassesAsSet, PassesAsPure;
  }

  /** A combination without a set of more than four cards is itself such a way. */
  lemma CombinationIsShowing(info: Info, hand: seq<Card>, jokerPoint: int)
    requires IsCombination(info, hand, jokerPoint) && SetsUptoFour(info.groups) && |hand| >= 6
    ensures Showing(info.groups, hand, jokerPoint)
  {
    hide Shows, LooseScore, Made, AllCards, Lives, TotalScore, MadeOnes, LooseOnes, RealSets;
    var made :| CombinesAs(info, made, hand, jokerPoint);
    var loose := CardGroup(GROUP_INVALID, info.loose);
    ShownIffSetsUptoFour(info, hand, jokerPoint);
    AllCardsAppend(made, loose);
    assert made + [] == made;
    MadeSetsReal(info.groups, made, multiset(hand), jokerPoint);
  }

  lemma MadeSetsReal(groups: seq<CardGroup>, made: seq<CardGroup>, m: multiset<Card>, jokerPoint: int)
    requires SetsUptoFour(groups) && forall g :: g in made ==> Made(g, m, jokerPoint)
    requires forall g :: g in groups ==> g in made || g.kind == GROUP_INVALID
    ensures RealSets(groups, jokerPoint)
  {
    hide IsSet, SortCards, Made;
    forall g | g in groups && g.kind == GROUP_THREE_KIND
      ensures IsSet(SortCards(g.cards), jokerPoint)
    {
      MadeReal(g, m, jokerPoint);
    }
  }

  // ----- an example

  const LOW: seq<Card> := [Card(1, 2), Card(1, 3), Card(1, 4)]
  const HIGH: seq<Card> := [Card(2, 5), Card(2, 6), Card(2, 7)]
  const NINES: seq<Card> := [Card(1, 9), Card(2, 9), Card(3, 9)]

  lemma RunOfThree(a: Card, jokerPoint: int)
    requires 2 <= a.point <= 12
    ensures var run := [a, Card(a.color, a.point + 1), Card(a.color, a.point + 2)];
            var g := CardGroup(GROUP_STRAIGHT, run);
            StraightGroup(g, jokerPoint) && PureGroup(g)
  {
    hide SortCards, IsStraight;
    var run := [a, Card(a.color, a.point + 1), Card(a.color, a.point + 2)];
    SortedStays(run);
    assert run + [] == run;
    NoneWild(jokerPoint);
    assert Consecutive(run);
    RunIsStraight(run, [], jokerPoint);
  }

  /** Two, three, four of one colour, five, six, seven of another and three nines cost nothing. */
  lemma NinesDeclared()
    ensures exists info :: info in AllInfos(LOW + HIGH + NINES, 13) && info.score == 0
  {
    hide AllInfos, Dealt, AllCards, StraightGroup, PureGroup, IsSet, SortCards, TotalScore, LOW, HIGH, NINES;
    var hand := LOW + HIGH + NINES;
    var a, b := CardGroup(GROUP_STRAIGHT, LOW), CardGroup(GROUP_STRAIGHT, HIGH);
    var c := CardGroup(GROUP_THREE_KIND, NINES);
    ExampleStraights();
    ExampleSet();
    ExampleDealt();
    AllCardsAppend([a], b);
    AllCardsAppend([a] + [b], c);
    AllCardsAppend([], a);
    NoCards();
    assert [] + [a] == [a];
    var plan := [a] + [b] + [c];
    assert multiset(hand) == multiset(LOW) + multiset(HIGH) + multiset(NINES);
    var info := PlanFollowed(hand, 13, plan, []);
    NothingScore(13);
  }

  lemma ExampleStraights()
    ensures StraightGroup(CardGroup(GROUP_STRAIGHT, LOW), 13) && PureGroup(CardGroup(GROUP_STRAIGHT, LOW))
    ensures StraightGroup(CardGroup(GROUP_STRAIGHT, HIGH), 13)
  {
    hide StraightGroup, PureGroup;
    RunOfThree(Card(1, 2), 13);
    RunOfThree(Card(2, 5), 13);
  }

  lemma ExampleSet()
    ensures IsSet(SortCards(NINES), 13)
  {
    hide IsSet, SortCards;
    SetOfThree(Card(1, 9), Card(2, 9), Card(3, 9), 13);
    SortedStays(NINES);
  }

  lemma CountOfThree(a: Card, b: Card, d: Card, c: Card)
    requires a != b && b != d && a != d
    ensures multiset([a, b, d])[c] == if c == a || c == b || c == d then 1 else 0
  {
  }

  lemma ExampleDealt()
    ensures Dealt(multiset(LOW + HIGH + NINES))
  {
    var m := multiset(LOW + HIGH + NINES);
    forall c | c in m
      ensures m[c] <= 2 && Suited(c)
    {
      CountOfThree(Card(1, 2), Card(1, 3), Card(1, 4), c);
      CountOfThree(Card(2, 5), Card(2, 6), Card(2, 7), c);
      CountOfThree(Card(1, 9), Card(2, 9), Card(3, 9), c);
      ThreeParts(LOW, HIGH, NINES, c);
    }
  }

  lemma ThreeParts(a: seq<Card>, b: seq<Card>, d: seq<Card>, c: Card)
    ensures multiset(a + b + d)[c] == multiset(a)[c] + multiset(b)[c] + multiset(d)[c]
  {
  }

  // ----- the rules for straights on three cards

  /** Three cards pass as a pure straight: one above the other in one colour, two, three and ace in one
      colour, or a two, an ace of its colour and anything. */
  lemma PureOfThree(a: Card, b: Card, c: Card)
    ensures PassesAsPure([a, b, c]) <==>
              && a.color == b.color && a.point < 15 && b.point < 15
              && (|| (b.point == a.point + 1 && c.point == a.point + 2 && c.color == a.color && c.point < 15)
                  || (a.point == 2 && b.point == 3 && c.point == 14 && c.color == a.color)
                  || (a.point == 2 && b.point == 14))
  {
    var t := [a, b, c];
    assert t[..1] == [a] && t[..2] == [a, b];
    if PassesAsPure(t) { ThreePure(t); }
    if a.color == b.color && a.point < 15 && b.point < 15 {
      if a.point == 2 && b.point == 14 { assert AceAt(t, 1); }
      if a.point == 2 && b.point == 3 && c.point == 14 && c.color == a.color { assert AceAt(t, 2); }
      if b.point == a.point + 1 && c.point == a.point + 2 && c.color == a.color && c.point < 15 {
        assert Consecutive(t);
      }
    }
  }

  /** Three natural cards in order are a straight: of one colour, one above the other or two, three, ace. */
  lemma StraightOfThree(a: Card, b: Card, c: Card, jokerPoint: int)
    requires 2 <= a.point < 15 && b.point < 15 && c.point < 15 && Sorted([a, b, c])
    requires a.point != jokerPoint && b.point != jokerPoint && c.point != jokerPoint
    ensures IsStraight([a, b, c], jokerPoint) <==>
              && a.color == b.color == c.color
              && (|| (b.point == a.point + 1 && c.point == a.point + 2)
                  || (a.point == 2 && b.point == 3 && c.point == 14))
  {
    var t := [a, b, c];
    assert t[0] == a && t[1] == b && t[2] == c;
    assert Upto(t[0], t[1]) && Upto(t[1], t[2]);
    ChainOfThree(t);
    hide SortCards, Lowered, Naturals, IsStraight, Sorted, Chain;
    if Chain(t) {
      LinkedThree(t, jokerPoint);
    } else {
      NaturalsAll(t, jokerPoint);
      StraightCases(t, jokerPoint);
    }
  }

  lemma ThreeGaps(t: seq<Card>, jokerPoint: int)
    requires |t| == 3 && Rising(t, jokerPoint)
    ensures Gaps(t) == t[2].point - t[0].point - 2
    ensures var low := SortCards(Lowered(t));
            if t[2].point == ACE then Chain(low) && Gaps(low) == t[1].point - 3 else low == t
  {
    hide SortCards, Lowered, Chain, Rising, Gaps;
    GapsTelescope(t);
    AceIsLast(t, jokerPoint);
    if t[2].point == ACE {
      var front, ace := [t[0], t[1]], t[2];
      assert t == front + [ace];
      LowGaps(front, ace, jokerPoint);
      LowLinked(front, ace, jokerPoint);
    }
  }

  lemma LinkedThree(t: seq<Card>, jokerPoint: int)
    requires |t| == 3 && Sorted(t) && Chain(t) && forall c :: c in t ==> !Wild(c, jokerPoint) && 2 <= c.point
    ensures IsStraight(t, jokerPoint) <==> t[2].point - t[0].point <= 2 || (t[2].point == ACE && t[1].point <= 3)
  {
    hide SortCards, Lowered, Naturals, IsStraight, Sorted, Chain, Rising, Gaps, Wild;
    NaturalsAll(t, jokerPoint);
    ChainIsRising(t, jokerPoint);
    StraightCases(t, jokerPoint);
    ThreeGaps(t, jokerPoint);
  }

  lemma ChainOfThree(t: seq<Card>)
    requires |t| == 3
    ensures Chain(t) <==> Linked(t[0], t[1]) && Linked(t[1], t[2])
  {
  }

  lemma NaturalsAll(t: seq<Card>, jokerPoint: int)
    requires |t| == 3 && forall c :: c in t ==> !Wild(c, jokerPoint)
    ensures Naturals(t, jokerPoint) == t
  {
    hide Naturals;
    assert t[..0] == [] && t[..1] == [t[0]] && t[..2] == [t[0], t[1]] && t[..3] == t;
    NoNaturals(jokerPoint);
    NaturalsSplit(t, jokerPoint, 0);
    NaturalsSplit(t, jokerPoint, 1);
    NaturalsSplit(t, jokerPoint, 2);
  }

  /** With the ace low the cards below it stay linked. */
  lemma LowLinked(front: seq<Card>, ace: Card, jokerPoint: int)
    requires Rising(front + [ace], jokerPoint) && ace.point == ACE && front != []
    ensures Chain(SortCards(Lowered(front + [ace])))
  {
    hide Lowered, SortCards;
    BelowAce(front, ace, jokerPoint);
    var low := [Card(ace.color, 1)] + front;
    LoweredFront(front, ace);
    assert multiset([ace] + front) == multiset(front + [ace]);
    LoweredSame([ace] + front, front + [ace]);
    SortCardsSorted(Lowered(front + [ace]));
    SortedUnique(SortCards(Lowered(front + [ace])), low);
  }
}
