/** The class Combination of server/server/gamesvr/Combination.cpp: the loops that search a hand for
    groups and declare the best combination found. */
module Combination {
  import opened CardDealer
  import opened GroupRules
  import opened Choices
  import opened GroupSearch
  import opened GroupFacts
  import opened HandFacts
  import opened SearchReach
  import opened SearchBest

  const MAX_CARD_COUNT := 14

  lemma ChooseSize<T>(arr: seq<T>, n: nat)
    ensures forall c :: c in Choose(arr, n) ==> |c| == n
  {
    hide Select, Masks;
    if n <= |arr| { MasksSize(|arr|, n); }
  }

  /** search_joker_cards. */
  method SearchJokerCards(cards: seq<Card>, jokerPoint: int) returns (jokers: seq<Card>)
    ensures jokers == WildCards(cards, jokerPoint)
  {
    jokers := [];
    for i := 0 to |cards|
      invariant jokers == WildCards(cards[..i], jokerPoint)
    {
      assert cards[..i + 1][..i] == cards[..i];
      if Wild(cards[i], jokerPoint) { jokers := jokers + [cards[i]]; }
    }
    assert cards[..|cards|] == cards;
  }

  /** caculate_all_cards_combines, from one card on. */
  method AllCardsCombines(cards: seq<Card>) returns (combines: seq<seq<Card>>)
    ensures combines == AllCombines(cards)
  {
    hide Choose;
    combines := [];
    for i := 1 to |cards| + 1
      invariant combines == Combines(cards, i - 1)
    {
      var some := AllChoices(cards, i);
      combines := combines + some;
    }
  }

  /** to_straight_fill_joker_num: the least number of jokers that makes a straight and the most there are,
      or zero and zero. */
  method ToStraightFillJokerNum(cards: seq<Card>, jokerCount: nat) returns (minNum: int, maxNum: int)
    requires cards != []
    ensures if FillNeed(cards) > jokerCount then minNum == maxNum == 0
            else minNum == FillNeed(cards) && maxNum == jokerCount
  {
    var fillNum, last := 0, cards[0];
    var i := 1;
    while i < |cards|
      invariant 1 <= i <= |cards| && last == cards[i - 1] && fillNum == Missing(cards[..i])
    {
      assert cards[..i + 1][..i] == cards[..i];
      if last.point == ACE {
        fillNum := fillNum + (cards[i].point - 1 - 1);
      } else {
        fillNum := fillNum + (cards[i].point - last.point - 1);
      }
      last, i := cards[i], i + 1;
    }
    assert cards[..i] == cards;
    var totalNum := |cards| + fillNum;
    if totalNum < 3 { fillNum := fillNum + (3 - totalNum); }
    if fillNum == 0 { fillNum := 1; }
    if fillNum > jokerCount { return 0, 0; }
    return fillNum, fillNum + (jokerCount - fillNum);
  }

  /** remove_cards. */
  method RemoveCards(group: seq<Card>, cards: seq<Card>) returns (rest: seq<Card>)
    ensures rest == Removed(cards, group)
  {
    rest := cards;
    for i := 0 to |group|
      invariant rest == Removed(cards, group[..i])
    {
      assert group[..i + 1][..i] == group[..i];
      var at := Find(rest, group[i]);
      if at != |rest| { rest := rest[..at] + rest[at + 1..]; }
    }
    assert group[..|group|] == group;
  }

  const BLANK := Card(0, 0)

  lemma PaddedCount(cards: seq<Card>, n: nat, c: Card)
    requires c != BLANK
    ensures multiset(cards + seq(n, _ => BLANK))[c] == multiset(cards)[c]
  {
    var padding := seq(n, _ => BLANK);
    assert c !in padding;
  }

  lemma BlankedCount(left: seq<Card>, at: nat, c: Card)
    requires at < |left| && c != BLANK
    ensures multiset(left[at := BLANK])[c] == multiset(left)[c] - (if c == left[at] && c != BLANK then 1 else 0)
  {
  }

  /** The group as far as it is found, and its next card. */
  lemma NextInGroup(group: seq<Card>, i: nat, all: multiset<Card>)
    requires i < |group| && multiset(group[..i]) <= all
    ensures var c := group[i];
            && (multiset(group[..i])[c] < all[c] ==> multiset(group[..i + 1]) <= all)
            && (multiset(group[..i])[c] == all[c] ==> !(multiset(group) <= all))
    ensures forall d :: multiset(group[..i + 1])[d] == multiset(group[..i])[d] + (if d == group[i] then 1 else 0)
  {
    var c := group[i];
    assert group[..i + 1] == group[..i] + [c];
    assert group == group[..i + 1] + group[i + 1..];
    if multiset(group) <= all { assert multiset(group)[c] <= all[c]; }
  }

  /** The test of remove_card_group: find each card in a copy padded to 14 places and blank it out. */
  method CanTake(cards: seq<Card>, group: seq<Card>) returns (isIn: bool)
    requires |cards| <= MAX_CARD_COUNT && BLANK !in group
    ensures isIn <==> multiset(group) <= multiset(cards)
  {
    var left := cards + seq(MAX_CARD_COUNT - |cards|, _ => BLANK);
    ghost var all := multiset(cards);
    forall c | c != BLANK
      ensures multiset(left)[c] == all[c]
    {
      PaddedCount(cards, MAX_CARD_COUNT - |cards|, c);
    }
    for i := 0 to |group|
      invariant multiset(group[..i]) <= all
      invariant forall c :: c != BLANK ==> multiset(left)[c] == all[c] - multiset(group[..i])[c]
    {
      NextInGroup(group, i, all);
      var c := group[i];
      assert c != BLANK && (c in left <==> multiset(left)[c] > 0);
      var at := Find(left, c);
      if at == |left| { return false; }
      forall d | d != BLANK
        ensures multiset(left[at := BLANK])[d] == all[d] - multiset(group[..i + 1])[d]
      {
        BlankedCount(left, at, d);
      }
      left := left[at := BLANK];
    }
    assert group[..|group|] == group;
    return true;
  }

  /** remove_card_group. */
  method RemoveCardGroup(cards: seq<Card>, groups: seq<CardGroup>) returns (out: seq<CardGroup>)
    requires |cards| <= MAX_CARD_COUNT && forall g :: g in groups ==> BLANK !in g.cards
    ensures out == Within(cards, groups)
  {
    out := [];
    for i := 0 to |groups|
      invariant out == Within(cards, groups[..i])
    {
      assert groups[..i + 1][..i] == groups[..i];
      var isIn := CanTake(cards, groups[i].cards);
      if isIn { out := out + [groups[i]]; }
    }
    assert groups[..|groups|] == groups;
  }

  /** search_pure_straight_flush. */
  method SearchPureStraightFlush(groups: seq<CardGroup>) returns (pures: seq<CardGroup>)
    ensures pures == PassingPure(groups)
  {
    hide PassesAsPure;
    pures := [];
    for i := 0 to |groups|
      invariant pures == PassingPure(groups[..i])
    {
      assert groups[..i + 1][..i] == groups[..i];
      var pure := IsCardsPureStraight(groups[i].cards);
      if pure { pures := pures + [groups[i]]; }
    }
    assert groups[..|groups|] == groups;
  }

  class Combination {
    var jokerCards: seq<Card>
    var jokerCombines: seq<seq<Card>>
    var jokerPoint: int

    constructor ()
      ensures Valid() && jokerCards == [] && jokerPoint == 0
    {
      jokerCards, jokerCombines, jokerPoint := [], [], 0;
    }

    /** The choices kept are those of the jokers kept. */
    ghost predicate Valid()
      reads this
    {
      jokerCombines == AllCombines(jokerCards)
    }

    method SetJokers(jokers: seq<Card>)
      modifies this`jokerCards, this`jokerCombines
      ensures Valid() && jokerCards == jokers
    {
      jokerCards := jokers;
      jokerCombines := AllCardsCombines(jokers);
    }

    /** The turn of combine_with_joker_card for one number of jokers. */
    method FillWith(cards: seq<Card>, size: int) returns (groups: seq<CardGroup>)
      ensures groups == FlatMap(jokerCombines, Filled(cards, size))
    {
      hide Filled, SortCards;
      groups := [];
      FlatMapEnds(jokerCombines, Filled(cards, size));
      assert jokerCombines[..0] == [];
      for k := 0 to |jokerCombines|
        invariant groups == FlatMap(jokerCombines[..k], Filled(cards, size))
      {
        FlatMapNext(jokerCombines, Filled(cards, size), k);
        FilledAt(cards, size, jokerCombines[k]);
        if |jokerCombines[k]| == size {
          groups := groups + [CardGroup(GROUP_STRAIGHT, SortCards(cards + jokerCombines[k]))];
        }
      }
    }

    /** combine_with_joker_card. */
    method CombineWithJokerCard(cards: seq<Card>) returns (groups: seq<CardGroup>)
      requires Valid() && cards != []
      ensures groups == WithJokers(cards, jokerCards)
    {
      hide FillNeed, AllCombines, Filled, FlatMap;
      groups := [];
      var minFill, maxFill := ToStraightFillJokerNum(cards, |jokerCards|);
      if minFill == 0 { return; }
      for i := minFill to maxFill + 1
        invariant groups == FilledUpto(cards, jokerCombines, minFill, i - 1)
      {
        var some := FillWith(cards, i);
        groups := groups + some;
      }
    }

    /** search_straight_flush_select_n. */
    method SearchStraightFlushSelectN(cards: seq<Card>, n: nat) returns (groups: seq<CardGroup>)
      requires Valid() && 1 <= n <= 14
      ensures groups == FlatMap(Choose(cards, n), HandStraights(jokerCards))
    {
      hide HandStraights, Choose, AllCombines;
      groups := [];
      var hands := AllChoices(cards, n);
      ChooseSize(cards, n);
      FlatMapEnds(hands, HandStraights(jokerCards));
      assert hands[..0] == [];
      for k := 0 to |hands|
        invariant groups == FlatMap(hands[..k], HandStraights(jokerCards))
      {
        FlatMapNext(hands, HandStraights(jokerCards), k);
        var some := StraightsOfHand(hands[k]);
        groups := groups + some;
      }
    }

    /** The body of its loop. */
    method StraightsOfHand(hand: seq<Card>) returns (groups: seq<CardGroup>)
      requires Valid() && hand != []
      ensures groups == HandStraights(jokerCards)(hand)
    {
      hide PassesAsPure, WithJokers, AllCombines;
      groups := [];
      var pure := IsCardsPureStraight(hand);
      if pure { groups := groups + [CardGroup(GROUP_STRAIGHT, hand)]; }
      assert groups == PureAlone()(hand);
      var more := CombineWithJokerCard(hand);
      groups := groups + more;
      assert groups == groups + [];
      if |hand| > 1 && hand[|hand| - 1].point == ACE {
        more := CombineWithJokerCard([hand[|hand| - 1]] + hand[..|hand| - 1]);
        groups := groups + more;
      }
    }

    /** search_straight_flush_i. */
    method SearchStraightFlushI(flush: seq<Card>, repeats: seq<Card>) returns (groups: seq<CardGroup>)
      requires Valid() && |flush| + |jokerCards| <= 14
      ensures groups == FlushStraights(flush, repeats, jokerCards)
    {
      hide HandStraights, PureAlone, Choose, FlatMap, AllCombines;
      groups := [];
      for i := 1 to |flush| + |jokerCards| + 1
        invariant groups == StraightsUpto(flush, jokerCards, i - 1)
      {
        var some := SearchStraightFlushSelectN(flush, i);
        groups := groups + some;
      }
      ghost var straights := groups;
      for i := 1 to |repeats| + 1
        invariant groups == straights + PuresUpto(repeats, i - 1)
      {
        var hands := AllChoices(repeats, i);
        var some := PureOnes(hands);
        groups := groups + some;
      }
    }

    method PureOnes(hands: seq<seq<Card>>) returns (groups: seq<CardGroup>)
      ensures groups == FlatMap(hands, PureAlone())
    {
      hide PassesAsPure;
      groups := [];
      FlatMapEnds(hands, PureAlone());
      assert hands[..0] == [];
      for k := 0 to |hands|
        invariant groups == FlatMap(hands[..k], PureAlone())
      {
        FlatMapNext(hands, PureAlone(), k);
        var pure := IsCardsPureStraight(hands[k]);
        if pure { groups := groups + [CardGroup(GROUP_STRAIGHT, hands[k])]; }
      }
    }

    /** The cards of one colour sorted, and split into those of new points and the repeated ones. */
    method SplitRepeats(flush: seq<Card>) returns (pops: seq<Card>, repeats: seq<Card>)
      ensures pops == Firsts(flush, jokerPoint) && repeats == Repeats(flush, jokerPoint)
    {
      pops, repeats := [], [];
      for i := 0 to |flush|
        invariant pops == Firsts(flush[..i], jokerPoint) && repeats == Repeats(flush[..i], jokerPoint)
      {
        assert flush[..i + 1][..i] == flush[..i];
        if !Wild(flush[i], jokerPoint) {
          if pops != [] && pops[|pops| - 1].point == flush[i].point {
            repeats := repeats + [flush[i]];
          } else {
            pops := pops + [flush[i]];
          }
        }
      }
      assert flush[..|flush|] == flush;
    }

    /** The body of search_straight_flush for the cards of one colour, if there are any. */
    method SearchColor(cards: seq<Card>, color: nat) returns (groups: seq<CardGroup>)
      requires Valid() && |cards| <= MAX_CARD_COUNT
      requires Dealt(multiset(cards)) && JokersOf(multiset(jokerCards), multiset(cards), jokerPoint)
      ensures groups == ColorStraights(cards, jokerCards, jokerPoint, color)
    {
      hide SortCards, Flush, Firsts, Repeats, Dealt, JokersOf, FlushStraights, AllCombines;
      var flush := SortCards(Flush(cards, color));
      var pops, repeats := SplitRepeats(flush);
      FlushPart(cards, jokerCards, color, jokerPoint);
      FlushFits(pops, repeats, jokerCards, cards);
      groups := SearchStraightFlushI(pops, repeats);
    }

    /** search_straight_flush: colour by colour, then jokers alone. A colour that does not occur has no
        cards to choose from. */
    method SearchStraightFlush(cards: seq<Card>) returns (groups: seq<CardGroup>)
      requires Valid() && |cards| <= MAX_CARD_COUNT
      requires Dealt(multiset(cards)) && JokersOf(multiset(jokerCards), multiset(cards), jokerPoint)
      ensures groups == StraightGroups(cards, jokerCards, jokerPoint)
    {
      hide ColorStraights, Dealt, JokersOf, AllCombines;
      groups := [];
      for color := 0 to COLORS
        invariant groups == ColorsUpto(cards, jokerCards, jokerPoint, color)
      {
        var some := SearchColor(cards, color);
        groups := groups + some;
      }
      ghost var colors := groups;
      FlatMapEnds(jokerCombines, JokersAlone());
      assert jokerCombines[..0] == [] && colors + [] == colors;
      for k := 0 to |jokerCombines|
        invariant groups == colors + FlatMap(jokerCombines[..k], JokersAlone())
      {
        FlatMapNext(jokerCombines, JokersAlone(), k);
        if |jokerCombines[k]| >= 3 { groups := groups + [CardGroup(GROUP_STRAIGHT, jokerCombines[k])]; }
      }
    }

    /** search_three_of_kind_select_n. */
    method SearchThreeOfKindSelectN(cards: seq<Card>, n: nat) returns (groups: seq<CardGroup>)
      requires Valid() && 2 <= n <= 4
      ensures groups == FlatMap(Choose(cards, n), HandSets(jokerCards))
    {
      hide HandSets, Choose, AllCombines;
      groups := [];
      var hands := AllChoices(cards, n);
      FlatMapEnds(hands, HandSets(jokerCards));
      assert hands[..0] == [];
      for k := 0 to |hands|
        invariant groups == FlatMap(hands[..k], HandSets(jokerCards))
      {
        FlatMapNext(hands, HandSets(jokerCards), k);
        var some := SetsOfHand(hands[k]);
        groups := groups + some;
      }
    }

    /** The body of its loop. */
    method SetsOfHand(hand: seq<Card>) returns (groups: seq<CardGroup>)
      requires Valid()
      ensures groups == HandSets(jokerCards)(hand)
    {
      hide AllCombines;
      groups := [];
      if |hand| > 2 { groups := groups + [CardGroup(GROUP_THREE_KIND, hand)]; }
      ghost var alone := groups;
      FlatMapEnds(jokerCombines, SetWith(hand));
      assert jokerCombines[..0] == [] && alone + [] == alone;
      for k := 0 to |jokerCombines|
        invariant groups == alone + FlatMap(jokerCombines[..k], SetWith(hand))
      {
        FlatMapNext(jokerCombines, SetWith(hand), k);
        groups := groups + [CardGroup(GROUP_THREE_KIND, hand + jokerCombines[k])];
      }
    }

    /** search_three_of_kind_i. */
    method SearchThreeOfKindI(cards: seq<Card>, repeats: seq<Card>) returns (groups: seq<CardGroup>)
      requires Valid()
      ensures groups == PointSets(cards, repeats, jokerCards)
    {
      hide HandSets, SetAlone, Choose, FlatMap, AllCombines;
      var two := SearchThreeOfKindSelectN(cards, 2);
      var three := SearchThreeOfKindSelectN(cards, 3);
      var four := SearchThreeOfKindSelectN(cards, 4);
      groups := two + three + four;
      var hands := AllChoices(repeats, 3);
      var some := PlainSets(hands);
      groups := groups + some;
      hands := AllChoices(repeats, 4);
      some := PlainSets(hands);
      groups := groups + some;
    }

    method PlainSets(hands: seq<seq<Card>>) returns (groups: seq<CardGroup>)
      ensures groups == FlatMap(hands, SetAlone())
    {
      groups := [];
      FlatMapEnds(hands, SetAlone());
      assert hands[..0] == [];
      for k := 0 to |hands|
        invariant groups == FlatMap(hands[..k], SetAlone())
      {
        FlatMapNext(hands, SetAlone(), k);
        groups := groups + [CardGroup(GROUP_THREE_KIND, hands[k])];
      }
    }

    /** search_three_of_kind. */
    method SearchThreeOfKind(cards: seq<Card>) returns (groups: seq<CardGroup>)
      requires Valid()
      ensures groups == SetGroups(cards, jokerCards, jokerPoint)
    {
      hide PointSets, SortCards, AllCombines;
      var left := SortCards(cards);
      var pops, repeats: seq<Card> := [], [];
      groups := [];
      while left != []
        invariant groups + SetsFrom(left, pops, repeats, jokerCards, jokerPoint)
               == SetsFrom(SortCards(cards), [], [], jokerCards, jokerPoint)
        decreases |left|
      {
        var c := left[0];
        if (pops == [] || pops[0].point == c.point) && !Wild(c, jokerPoint) {
          if c in pops {
            repeats := repeats + [c];
          } else {
            pops := pops + [c];
          }
          left := left[1..];
          continue;
        }
        ghost var after := SetsFrom(left[1..], [c], [], jokerCards, jokerPoint);
        ghost var before := groups;
        assert before + (SetsWhenTwo(pops, repeats, jokerCards) + after)
            == (before + SetsWhenTwo(pops, repeats, jokerCards)) + after;
        if |pops| >= 2 {
          var some := SearchThreeOfKindI(pops, repeats);
          groups := groups + some;
        }
        assert groups == before + SetsWhenTwo(pops, repeats, jokerCards);
        pops, repeats, left := [c], [], left[1..];
      }
      if |pops| >= 2 {
        var some := SearchThreeOfKindI(pops, repeats);
        groups := groups + some;
      }
    }

    /** gen_valid_card_group and the fields set around it. */
    method Finish(groups: seq<CardGroup>, rest: seq<Card>, firstLife: bool, secondLife: bool) returns (info: Info)
      ensures info == Complete(groups, rest, jokerPoint, firstLife, secondLife)
    {
      if rest == [] { return Info(0, groups, [], firstLife, secondLife); }
      var score := CalculateCardScore(rest, jokerPoint);
      return Info(score, groups + [CardGroup(GROUP_INVALID, rest)], rest, firstLife, secondLife);
    }

    /** The innermost loop, over a fourth group; hardly any card is left behind it. */
    method SearchFourth(groups: seq<CardGroup>, cards3: seq<Card>, more: seq<CardGroup>, stop: nat,
                        ghost hand: seq<Card>)
      returns (infos: seq<Info>, over: bool)
      requires |groups| == 3 && |hand| <= MAX_CARD_COUNT && Partial(groups, cards3, hand, jokerPoint)
      requires forall g :: g in more ==> Made(g, multiset(cards3), jokerPoint)
      ensures infos == CutAt(FlatMap(more, WithFourth(groups, cards3, jokerPoint)), stop)
      ensures over <==> Stopped(FlatMap(more, WithFourth(groups, cards3, jokerPoint)), stop)
    {
      hide Partial, Made, Removed, Complete, FlatMap, CutAt, Stopped;
      ghost var f := WithFourth(groups, cards3, jokerPoint);
      infos := [];
      LoopBegins(more, f, stop);
      for k := 0 to |more|
        invariant infos == FlatMap(more[..k], f) && !Stopped(infos, stop)
      {
        TurnOf(more, f, k, stop);
        var cards4 := RemoveCards(more[k].cards, cards3);
        PartialNext(groups, cards3, hand, jokerPoint, more[k]);
        RestFits(groups + [more[k]], cards4, hand, jokerPoint);
        assert |cards4| < 3;
        var info := Finish(groups + [more[k]], cards4, true, true);
        CompleteLoose(groups + [more[k]], cards4, jokerPoint);
        CutOne(info, stop);
        infos := infos + [info];
        if cards4 == [] || stop >= |cards4| { return infos, true; }
      }
      LoopEnds(more, f, stop);
      return infos, false;
    }

    /** The loop over a third group. */
    method SearchThird(groups: seq<CardGroup>, cards2: seq<Card>, found: seq<CardGroup>, stop: nat,
                       ghost hand: seq<Card>)
      returns (infos: seq<Info>, over: bool)
      requires |groups| == 2 && |hand| <= MAX_CARD_COUNT && Partial(groups, cards2, hand, jokerPoint)
      requires Dealt(multiset(cards2)) && forall g :: g in found ==> Made(g, multiset(cards2), jokerPoint)
      ensures infos == CutAt(FlatMap(found, WithThird(groups, cards2, found, jokerPoint)), stop)
      ensures over <==> Stopped(FlatMap(found, WithThird(groups, cards2, found, jokerPoint)), stop)
    {
      hide Partial, Made, Removed, Complete, FlatMap, CutAt, Stopped, Within, WithFourth, Dealt;
      ghost var f := WithThird(groups, cards2, found, jokerPoint);
      infos := [];
      LoopBegins(found, f, stop);
      for k := 0 to |found|
        invariant infos == FlatMap(found[..k], f) && !Stopped(infos, stop)
      {
        TurnOf(found, f, k, stop);
        var cards3 := RemoveCards(found[k].cards, cards2);
        PartialNext(groups, cards2, hand, jokerPoint, found[k]);
        RestFits(groups + [found[k]], cards3, hand, jokerPoint);
        var some, done := ThirdTaken(groups + [found[k]], cards2, cards3, found, stop, hand);
        infos := infos + some;
        if done { return infos, true; }
      }
      LoopEnds(found, f, stop);
      return infos, false;
    }

    /** The body of that loop, the third group taken. */
    method ThirdTaken(groups: seq<CardGroup>, cards2: seq<Card>, cards3: seq<Card>, found: seq<CardGroup>, stop: nat,
                      ghost hand: seq<Card>)
      returns (infos: seq<Info>, over: bool)
      requires |groups| == 3 && |hand| <= MAX_CARD_COUNT && |cards3| <= MAX_CARD_COUNT
      requires Partial(groups, cards3, hand, jokerPoint) && Dealt(multiset(cards2))
      requires forall g :: g in found ==> Made(g, multiset(cards2), jokerPoint)
      ensures var more := Within(cards3, found);
              var all := if cards3 == [] || more == [] then [Complete(groups, cards3, jokerPoint, true, true)]
                         else FlatMap(more, WithFourth(groups, cards3, jokerPoint));
              infos == CutAt(all, stop) && (over <==> Stopped(all, stop))
    {
      hide Partial, Made, Complete, FlatMap, CutAt, Stopped, Within, WithFourth, Dealt;
      if cards3 == [] {
        var info := Finish(groups, cards3, true, true);
        CompleteLoose(groups, cards3, jokerPoint);
        CutOne(info, stop);
        return [info], true;
      }
      forall g | g in found
        ensures BLANK !in g.cards
      {
        NoBlank(g, multiset(cards2), jokerPoint);
      }
      var more := RemoveCardGroup(cards3, found);
      if more == [] {
        var info := Finish(groups, cards3, true, true);
        CompleteLoose(groups, cards3, jokerPoint);
        CutOne(info, stop);
        return [info], stop >= |cards3|;
      }
      forall g | g in more
        ensures Made(g, multiset(cards3), jokerPoint)
      {
        InWithin(cards3, found, g);
        WithinMade(cards3, multiset(cards2), found, jokerPoint, g);
      }
      infos, over := SearchFourth(groups, cards3, more, stop, hand);
    }

    /** The jokers kept are brought up to date when they have changed. */
    method UpdateJokers(jokers: seq<Card>)
      requires Valid()
      modifies this`jokerCards, this`jokerCombines
      ensures Valid() && jokerCards == jokers
    {
      if jokerCards != jokers { SetJokers(jokers); }
    }

    /** The body of the loop over a second group. */
    method SecondTaken(first: CardGroup, cards1: seq<Card>, jokers1: seq<Card>, g: CardGroup, stop: nat,
                       ghost hand: seq<Card>)
      returns (infos: seq<Info>, over: bool)
      requires Valid() && |hand| <= MAX_CARD_COUNT && Partial([first], cards1, hand, jokerPoint)
      requires Dealt(multiset(cards1)) && JokersOf(multiset(jokers1), multiset(cards1), jokerPoint)
      requires Made(g, multiset(cards1), jokerPoint)
      modifies this`jokerCards, this`jokerCombines
      ensures Valid()
      ensures infos == CutAt(WithSecond(first, cards1, jokers1, jokerPoint)(g), stop)
      ensures over <==> Stopped(WithSecond(first, cards1, jokers1, jokerPoint)(g), stop)
    {
      hide Partial, Made, Removed, Complete, FlatMap, CutAt, Stopped, WithThird, Dealt, JokersOf, AllCombines,
           StraightGroups, SetGroups;
      var cards2 := RemoveCards(g.cards, cards1);
      var jokers2 := RemoveCards(g.cards, jokers1);
      PartialNext([first], cards1, hand, jokerPoint, g);
      assert [first] + [g] == [first, g];
      RestFits([first, g], cards2, hand, jokerPoint);
      if cards2 == [] {
        var info := Finish([first, g], cards2, true, true);
        CompleteLoose([first, g], cards2, jokerPoint);
        CutOne(info, stop);
        return [info], true;
      }
      JokersNext(cards1, jokers1, g.cards, jokerPoint);
      DealtPart(multiset(cards1), multiset(cards2));
      UpdateJokers(jokers2);
      var straights := SearchStraightFlush(cards2);
      var sets := SearchThreeOfKind(cards2);
      var found := straights + sets;
      if found == [] {
        var info := Finish([first, g], cards2, true, true);
        CompleteLoose([first, g], cards2, jokerPoint);
        CutOne(info, stop);
        return [info], stop >= |cards2|;
      }
      forall f | f in found
        ensures Made(f, multiset(cards2), jokerPoint)
      {
        FoundMade(cards2, jokers2, jokerPoint, f);
      }
      infos, over := SearchThird([first, g], cards2, found, stop, hand);
    }

    /** The loop over a second group. */
    method SearchSecond(first: CardGroup, cards1: seq<Card>, jokers1: seq<Card>, seconds: seq<CardGroup>, stop: nat,
                        ghost hand: seq<Card>)
      returns (infos: seq<Info>, over: bool)
      requires Valid() && |hand| <= MAX_CARD_COUNT && Partial([first], cards1, hand, jokerPoint)
      requires Dealt(multiset(cards1)) && JokersOf(multiset(jokers1), multiset(cards1), jokerPoint)
      requires forall g :: g in seconds ==> Made(g, multiset(cards1), jokerPoint)
      modifies this`jokerCards, this`jokerCombines
      ensures Valid()
      ensures infos == CutAt(FlatMap(seconds, WithSecond(first, cards1, jokers1, jokerPoint)), stop)
      ensures over <==> Stopped(FlatMap(seconds, WithSecond(first, cards1, jokers1, jokerPoint)), stop)
    {
      hide Partial, Made, FlatMap, CutAt, Stopped, WithSecond, Dealt, JokersOf, AllCombines;
      ghost var f := WithSecond(first, cards1, jokers1, jokerPoint);
      infos := [];
      LoopBegins(seconds, f, stop);
      for k := 0 to |seconds|
        invariant Valid() && infos == FlatMap(seconds[..k], f) && !Stopped(infos, stop)
      {
        TurnOf(seconds, f, k, stop);
        var some, done := SecondTaken(first, cards1, jokers1, seconds[k], stop, hand);
        infos := infos + some;
        if done { return infos, true; }
      }
      LoopEnds(seconds, f, stop);
      return infos, false;
    }

    /** The body of the loop over a first group. */
    method FirstTaken(hand: seq<Card>, jokers: seq<Card>, straights: seq<CardGroup>, g: CardGroup, stop: nat)
      returns (infos: seq<Info>, over: bool)
      requires Valid() && |hand| <= MAX_CARD_COUNT && Dealt(multiset(hand))
      requires JokersOf(multiset(jokers), multiset(hand), jokerPoint)
      requires g in straights && forall f :: f in straights ==> MadeStraight(f, multiset(hand), jokerPoint)
      modifies this`jokerCards, this`jokerCombines
      ensures Valid()
      ensures infos == CutAt(WithFirst(hand, jokers, straights, jokerPoint)(g), stop)
      ensures over <==> Stopped(WithFirst(hand, jokers, straights, jokerPoint)(g), stop)
    {
      hide Partial, MadeStraight, MadeSet, Removed, Complete, FlatMap, CutAt, Stopped, WithSecond, Within, Dealt,
           JokersOf, AllCombines;
      var cards1 := RemoveCards(g.cards, hand);
      var jokers1 := RemoveCards(g.cards, jokers);
      PartialNone(hand, jokerPoint);
      StraightKind(g, multiset(hand), jokerPoint);
      PartialNext([], hand, hand, jokerPoint, g);
      assert [] + [g] == [g];
      RestFits([g], cards1, hand, jokerPoint);
      if cards1 == [] {
        NothingStops(stop);
        return [], false;
      }
      JokersNext(hand, jokers, g.cards, jokerPoint);
      DealtPart(multiset(hand), multiset(cards1));
      forall f | f in straights
        ensures BLANK !in f.cards && Made(f, multiset(hand), jokerPoint)
      {
        StraightKind(f, multiset(hand), jokerPoint);
        NoBlank(f, multiset(hand), jokerPoint);
      }
      var seconds := RemoveCardGroup(cards1, straights);
      if seconds == [] {
        var info := Finish([g], cards1, true, false);
        CompleteLoose([g], cards1, jokerPoint);
        CutOne(info, stop);
        return [info], false;
      }
      hide Made;
      forall f | f in seconds
        ensures Made(f, multiset(cards1), jokerPoint)
      {
        InWithin(cards1, straights, f);
        WithinMade(cards1, multiset(hand), straights, jokerPoint, f);
      }
      infos, over := SearchSecond(g, cards1, jokers1, seconds, stop, hand);
    }

    /** search_all_group, for a hand of no more than fourteen cards of the two packs: the combinations of
        AllInfos in order, up to the first that leaves few enough loose. */
    method SearchAllGroup(hand: seq<Card>, stop: nat) returns (infos: seq<Info>)
      requires |hand| <= MAX_CARD_COUNT && Dealt(multiset(hand))
      modifies this`jokerCards, this`jokerCombines
      ensures Valid()
      ensures infos == CutAt(AllInfos(hand, jokerPoint), stop)
    {
      hide MadeStraight, FlatMap, CutAt, Stopped, WithFirst, Dealt, JokersOf, AllCombines, StraightGroups,
           PassingPure, WildCards, TotalScore;
      var jokers := SearchJokerCards(hand, jokerPoint);
      SetJokers(jokers);
      WildJokers(hand, jokerPoint);
      var straights := SearchStraightFlush(hand);
      var firsts := SearchPureStraightFlush(straights);
      if firsts == [] {
        var score := CalculateCardScore(hand, jokerPoint);
        CutOne(Info(score, [CardGroup(GROUP_INVALID, hand)], hand, false, false), stop);
        return [Info(score, [CardGroup(GROUP_INVALID, hand)], hand, false, false)];
      }
      forall f | f in straights
        ensures MadeStraight(f, multiset(hand), jokerPoint)
      {
        StraightsAreStraights(hand, jokers, jokerPoint, f);
      }
      ghost var f := WithFirst(hand, jokers, straights, jokerPoint);
      infos := [];
      LoopBegins(firsts, f, stop);
      for k := 0 to |firsts|
        invariant Valid() && infos == FlatMap(firsts[..k], f) && !Stopped(infos, stop)
      {
        TurnOf(firsts, f, k, stop);
        InPassingPure(straights, firsts[k]);
        var some, done := FirstTaken(hand, jokers, straights, firsts[k], stop);
        infos := infos + some;
        if done { return; }
      }
      LoopEnds(firsts, f, stop);
    }

    /** default_declare: of the combinations found the one with the least score, which no combination the
        search could reach undercuts, nor any way at all to show the hand by the rules. One is found, as the
        assertion of the source has it, unless the hand is three cards that form a pure straight. */
    method DefaultDeclare(hand: seq<Card>, joker: int) returns (found: bool, score: nat, groups: seq<CardGroup>)
      requires |hand| <= MAX_CARD_COUNT && Dealt(multiset(hand))
      modifies this
      ensures Valid() && jokerPoint == joker
      ensures found <==> !WholePureThree(hand, joker)
      ensures found ==> IsChoice(CutAt(AllInfos(hand, joker), 0), score, groups)
      ensures found ==>
                && (exists info :: info in AllInfos(hand, joker) && groups == info.groups && score == info.score)
                && (forall info :: info in AllInfos(hand, joker) ==> score <= info.score)
      ensures found ==>
                && AllCards(groups) == multiset(hand) && LooseScore(groups, joker) == score
                && (Shows(groups, joker) <==> SetsUptoFour(groups))
      ensures found ==> forall other :: Showing(other, hand, joker) ==> score <= LooseScore(other, joker)
    {
      hide AllInfos, CutAt, Dealt, WholePureThree, AllCombines, Shows, SetsUptoFour, LooseScore, AllCards;
      jokerPoint := joker;
      var infos := SearchAllGroup(hand, 0);
      NothingFoundIff(hand, joker);
      CutKeeps(AllInfos(hand, joker), 0);
      if infos == [] { return false, 0, []; }
      var at := BestOf(infos);
      found, score, groups := true, infos[at].score, infos[at].groups;
      assert infos[at] in infos;
      DeclaredIs(infos[at], hand, joker);
      LeastOfAll(hand, joker, infos, at);
      hide Showing, Chosen;
      LeastShown(hand, joker, score);
    }

    /** What default_declare returns goes through check_lose_declare, at the same score, if and only if no
        set in it has more than four cards. */
    method DeclareThenCheck(hand: seq<Card>, joker: int)
      returns (found: bool, ok: bool, score: nat, groups: seq<CardGroup>)
      requires |hand| <= MAX_CARD_COUNT && Dealt(multiset(hand))
      modifies this
      ensures found <==> !WholePureThree(hand, joker)
      ensures found ==> (ok <==> SetsUptoFour(groups)) && (ok ==> score == LooseScore(groups, joker))
      ensures found && ok ==> forall info :: info in AllInfos(hand, joker) ==> score <= info.score
      ensures found && ok ==> forall other :: Showing(other, hand, joker) ==> score <= LooseScore(other, joker)
    {
      hide AllInfos, Dealt, WholePureThree, AllCombines, Shows, SetsUptoFour, LooseScore, AllCards, Showing;
      ok := false;
      found, score, groups := DefaultDeclare(hand, joker);
      if found {
        ghost var declared := score;
        ok, score := CheckLoseDeclare(groups, joker);
      }
    }
  }

  /** The cards a colour offers and the jokers are no more than the hand. */
  lemma FlushFits(pops: seq<Card>, repeats: seq<Card>, jokers: seq<Card>, cards: seq<Card>)
    requires multiset(pops) + multiset(repeats) + multiset(jokers) <= multiset(cards)
    ensures |pops| + |jokers| <= |cards|
  {
    var part := multiset(pops) + multiset(repeats) + multiset(jokers);
    var rest := multiset(cards) - part;
    assert multiset(cards) == part + rest;
    assert |part + rest| == |part| + |rest| && |multiset(cards)| == |cards|;
  }

  // ----- the nested loops

  lemma {:induction false} FlatMapSplit<T, U>(list: seq<T>, f: T -> seq<U>, i: nat)
    requires i <= |list|
    ensures FlatMap(list, f) == FlatMap(list[..i], f) + FlatMap(list[i..], f)
  {
    if i == |list| {
      assert list[..i] == list && list[i..] == [];
    } else {
      var last := |list| - 1;
      FlatMapSplit(list[..last], f, i);
      assert list[..last][..i] == list[..i] && list[..last][i..] == list[i..][..last - i];
    }
  }

  lemma {:induction false} CutSame(infos: seq<Info>, stop: nat)
    requires !Stopped(infos, stop)
    ensures CutAt(infos, stop) == infos
  {
    if infos != [] {
      var init := infos[..|infos| - 1];
      StoppedParts(init, [infos[|infos| - 1]], stop);
      assert infos == init + [infos[|infos| - 1]];
    }
  }

  /** Behind a list that ends nothing the search goes on; behind one that does it is over. */
  lemma {:induction false} CutNext(done: seq<Info>, next: seq<Info>, stop: nat)
    ensures Stopped(done, stop) ==> CutAt(done + next, stop) == CutAt(done, stop)
    ensures !Stopped(done, stop) ==> CutAt(done + next, stop) == done + CutAt(next, stop)
    ensures Stopped(done + next, stop) <==> Stopped(done, stop) || Stopped(next, stop)
  {
    StoppedParts(done, next, stop);
    if next == [] {
      assert done + next == done;
      if !Stopped(done, stop) { CutSame(done, stop); }
    } else {
      var init := next[..|next| - 1];
      CutNext(done, init, stop);
      assert (done + next)[..|done| + |next| - 1] == done + init;
    }
  }

  lemma StoppedParts(done: seq<Info>, next: seq<Info>, stop: nat)
    ensures Stopped(done + next, stop) <==> Stopped(done, stop) || Stopped(next, stop)
  {
    var all := done + next;
    if k :| 0 <= k < |done| && Stops(done[k], stop) { assert Stops(all[k], stop); }
    if k :| 0 <= k < |next| && Stops(next[k], stop) { assert Stops(all[|done| + k], stop); }
  }

  lemma CutOne(info: Info, stop: nat)
    ensures CutAt([info], stop) == [info] && (Stopped([info], stop) <==> Stops(info, stop))
  {
    assert [info][..0] == [];
    if Stops(info, stop) { assert Stops([info][0], stop); }
  }

  /** The next turn of a loop that has ended nothing so far: the search goes on with what it adds, and is
      over if that ends it. */
  lemma TurnOf<T>(list: seq<T>, f: T -> seq<Info>, i: nat, stop: nat)
    requires i < |list| && !Stopped(FlatMap(list[..i], f), stop)
    ensures CutAt(FlatMap(list[..i + 1], f), stop) == FlatMap(list[..i], f) + CutAt(f(list[i]), stop)
    ensures Stopped(FlatMap(list[..i + 1], f), stop) <==> Stopped(f(list[i]), stop)
    ensures Stopped(f(list[i]), stop) ==>
              && CutAt(FlatMap(list, f), stop) == CutAt(FlatMap(list[..i + 1], f), stop)
              && Stopped(FlatMap(list, f), stop)
    ensures !Stopped(f(list[i]), stop) ==>
              CutAt(f(list[i]), stop) == f(list[i]) && FlatMap(list[..i + 1], f) == FlatMap(list[..i], f) + f(list[i])
  {
    FlatMapNext(list, f, i);
    CutNext(FlatMap(list[..i], f), f(list[i]), stop);
    FlatMapSplit(list, f, i + 1);
    CutNext(FlatMap(list[..i + 1], f), FlatMap(list[i + 1..], f), stop);
    if !Stopped(f(list[i]), stop) { CutSame(f(list[i]), stop); }
  }

  lemma LoopEnds<T>(list: seq<T>, f: T -> seq<Info>, stop: nat)
    requires !Stopped(FlatMap(list[..|list|], f), stop)
    ensures CutAt(FlatMap(list, f), stop) == FlatMap(list[..|list|], f) && !Stopped(FlatMap(list, f), stop)
  {
    FlatMapEnds(list, f);
    CutSame(FlatMap(list, f), stop);
  }

  lemma LoopBegins<T>(list: seq<T>, f: T -> seq<Info>, stop: nat)
    ensures FlatMap(list[..0], f) == [] && !Stopped([], stop)
  {
  }

  lemma CompleteLoose(groups: seq<CardGroup>, rest: seq<Card>, jokerPoint: int)
    ensures forall first, second :: Complete(groups, rest, jokerPoint, first, second).loose == rest
    ensures forall first, second :: Complete(groups, rest, jokerPoint, first, second).secondLife == second
  {
  }

  /** The combination default_declare settles on: the last if it scores nothing, else the first of the least
      score. */
  ghost predicate Chosen(infos: seq<Info>, at: nat) {
    && at < |infos| && (forall k :: 0 <= k < |infos| ==> infos[at].score <= infos[k].score)
    && (if infos[|infos| - 1].score == 0 then at == |infos| - 1
        else forall k :: 0 <= k < at ==> infos[k].score != infos[at].score)
  }

  ghost predicate IsChoice(infos: seq<Info>, score: nat, groups: seq<CardGroup>) {
    exists at: nat :: Chosen(infos, at) && groups == infos[at].groups && score == infos[at].score
  }

  method BestOf(infos: seq<Info>) returns (at: nat)
    requires infos != []
    ensures Chosen(infos, at)
  {
    if infos[|infos| - 1].score == 0 { return |infos| - 1; }
    at := 0;
    for k := 0 to |infos|
      invariant at < |infos| && at <= k && forall j :: 0 <= j < k ==> infos[at].score <= infos[j].score
      invariant forall j :: 0 <= j < at ==> infos[j].score != infos[at].score
    {
      if infos[k].score < infos[at].score { at := k; }
    }
  }

  /** Cutting drops nothing but what follows a combination that ends the search. */
  lemma {:induction false} CutKeeps(infos: seq<Info>, stop: nat)
    ensures CutAt(infos, stop) <= infos && (CutAt(infos, stop) == [] <==> infos == [])
    ensures CutAt(infos, stop) != infos ==> var cut := CutAt(infos, stop); cut != [] && Stops(cut[|cut| - 1], stop)
  {
    if infos != [] {
      var init := infos[..|infos| - 1];
      if Stopped(init, stop) {
        CutKeeps(init, stop);
        if CutAt(init, stop) == init { LastStops(init, stop); }
      }
    }
  }

  /** What cutting means: the list up to and including the first combination with both lives and no more
      than stop loose cards. */
  lemma {:induction false} CutMeaning(infos: seq<Info>, stop: nat, k: nat)
    requires k < |infos|
    ensures k < |CutAt(infos, stop)|
       <==> forall j :: 0 <= j < k ==> !(infos[j].secondLife && |infos[j].loose| <= stop)
    ensures k < |CutAt(infos, stop)| ==> CutAt(infos, stop)[k] == infos[k]
  {
    CutKeeps(infos, stop);
    var upto, from := infos[..k], infos[k..];
    assert infos == upto + from;
    CutNext(upto, from, stop);
    CutShort(upto, stop);
    CutKeeps(from, stop);
    assert Stopped(upto, stop) <==> exists j :: 0 <= j < k && Stops(infos[j], stop) by {
      if j :| 0 <= j < k && Stops(infos[j], stop) { assert Stops(upto[j], stop); }
    }
    if !(forall j :: 0 <= j < k ==> !(infos[j].secondLife && |infos[j].loose| <= stop)) {
      var j :| 0 <= j < k && infos[j].secondLife && |infos[j].loose| <= stop;
      assert Stops(infos[j], stop);
    }
  }

  /** A list that ends the search and is not cut ends it with its last combination. */
  lemma LastStops(infos: seq<Info>, stop: nat)
    requires Stopped(infos, stop) && CutAt(infos, stop) == infos
    ensures infos != [] && Stops(infos[|infos| - 1], stop)
  {
    var init := infos[..|infos| - 1];
    assert infos == init + [infos[|infos| - 1]];
    StoppedParts(init, [infos[|infos| - 1]], stop);
    CutOne(infos[|infos| - 1], stop);
    CutShort(init, stop);
  }

  lemma {:induction false} CutShort(infos: seq<Info>, stop: nat)
    ensures |CutAt(infos, stop)| <= |infos|
  {
    if infos != [] {
      CutShort(infos[..|infos| - 1], stop);
    }
  }

  lemma DeclaredIs(info: Info, hand: seq<Card>, jokerPoint: int)
    requires Dealt(multiset(hand)) && info in AllInfos(hand, jokerPoint)
    ensures AllCards(info.groups) == multiset(hand) && LooseScore(info.groups, jokerPoint) == info.score
    ensures Shows(info.groups, jokerPoint) <==> SetsUptoFour(info.groups)
    ensures info.loose == [] ==> info.score == 0
  {
    hide AllInfos, Dealt, Made, LooseScore, Shows, SetsUptoFour;
    CombinationsPartition(hand, jokerPoint, info);
    ShownIffSetsUptoFour(info, hand, jokerPoint);
    var made :| CombinesAs(info, made, hand, jokerPoint);
    AllCardsAppend(made, CardGroup(GROUP_INVALID, info.loose));
    NothingScore(jokerPoint);
    assert made + [] == made;
  }

  lemma PrefixMember(part: seq<Info>, whole: seq<Info>)
    requires part <= whole && part != []
    ensures part[|part| - 1] in whole
  {
    assert whole[|part| - 1] == part[|part| - 1];
  }

  /** The least score of a cut list is the least of all: what ends the search scores nothing. */
  lemma LeastOfAll(hand: seq<Card>, jokerPoint: int, infos: seq<Info>, at: nat)
    requires Dealt(multiset(hand)) && infos == CutAt(AllInfos(hand, jokerPoint), 0)
    requires at < |infos| && forall k :: 0 <= k < |infos| ==> infos[at].score <= infos[k].score
    ensures forall info :: info in AllInfos(hand, jokerPoint) ==> infos[at].score <= info.score
  {
    hide AllInfos, CutAt, Dealt, AllCards, LooseScore, Shows, SetsUptoFour;
    var all := AllInfos(hand, jokerPoint);
    CutKeeps(all, 0);
    if infos != all {
      var last := infos[|infos| - 1];
      PrefixMember(infos, all);
      DeclaredIs(last, hand, jokerPoint);
    } else {
      forall info | info in all
        ensures infos[at].score <= info.score
      {
        var k :| 0 <= k < |all| && all[k] == info;
      }
    }
  }

  lemma NothingStops(stop: nat)
    ensures CutAt([], stop) == [] && !Stopped([], stop)
  {
  }

  lemma NoBlank(g: CardGroup, m: multiset<Card>, jokerPoint: int)
    requires Dealt(m) && Made(g, m, jokerPoint)
    ensures BLANK !in g.cards
  {
    MadeOf(g, m, m, jokerPoint);
    assert BLANK !in m;
    assert BLANK !in multiset(g.cards);
  }

  lemma {:induction false} GroupsHold(groups: seq<CardGroup>, m: multiset<Card>, jokerPoint: int)
    requires forall g :: g in groups ==> Made(g, m, jokerPoint)
    ensures |AllCards(groups)| >= 3 * |groups|
  {
    hide Made;
    if groups != [] {
      var g := groups[|groups| - 1];
      GroupsHold(groups[..|groups| - 1], m, jokerPoint);
      MadeOf(g, m, m, jokerPoint);
      assert |multiset(g.cards)| == |g.cards|;
    }
  }

  /** Behind n groups there are at most |hand| - 3n cards. */
  lemma RestFits(groups: seq<CardGroup>, rest: seq<Card>, hand: seq<Card>, jokerPoint: int)
    requires Partial(groups, rest, hand, jokerPoint)
    ensures |rest| + 3 * |groups| <= |hand|
  {
    hide Made;
    GroupsHold(groups, multiset(hand), jokerPoint);
    assert |AllCards(groups) + multiset(rest)| == |AllCards(groups)| + |multiset(rest)|;
    assert |multiset(rest)| == |rest| && |multiset(hand)| == |hand|;
  }
}
