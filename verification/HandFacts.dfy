/** The combinations of groups the search reaches: each uses every card of the hand once, is scored by what
    is loose, and may be shown under the rules of GroupRules unless it holds a set of more than four cards. */
module HandFacts {
  import opened CardDealer
  import opened GroupRules
  import opened Choices
  import opened GroupSearch
  import opened GroupFacts

  // ----- scores

  lemma {:induction false} InsertedScore(cards: seq<Card>, c: Card, jokerPoint: int)
    ensures TotalScore(Inserted(cards, c), jokerPoint) == TotalScore(cards, jokerPoint) + Score(c, jokerPoint)
  {
    if cards == [] {
      assert TotalScore([c], jokerPoint) == TotalScore([c][..0], jokerPoint) + Score(c, jokerPoint);
    } else {
      var init, last := cards[..|cards| - 1], cards[|cards| - 1];
      if Upto(last, c) {
        assert (cards + [c])[..|cards|] == cards;
      } else {
        InsertedScore(init, c, jokerPoint);
        assert (Inserted(init, c) + [last])[..|cards|] == Inserted(init, c);
      }
    }
  }

  /** Sorting changes no score. */
  lemma {:induction false} SortedScore(cards: seq<Card>, jokerPoint: int)
    ensures TotalScore(SortCards(cards), jokerPoint) == TotalScore(cards, jokerPoint)
  {
    if cards != [] {
      var init, last := cards[..|cards| - 1], cards[|cards| - 1];
      SortedScore(init, jokerPoint);
      InsertedScore(SortCards(init), last, jokerPoint);
    }
  }

  // ----- partial combinations

  ghost function AllCards(groups: seq<CardGroup>): multiset<Card> {
    if groups == [] then multiset{} else AllCards(groups[..|groups| - 1]) + multiset(groups[|groups| - 1].cards)
  }

  lemma AllCardsAppend(groups: seq<CardGroup>, g: CardGroup)
    ensures AllCards(groups + [g]) == AllCards(groups) + multiset(g.cards)
  {
    assert (groups + [g])[..|groups|] == groups;
  }

  ghost predicate Made(g: CardGroup, m: multiset<Card>, jokerPoint: int) {
    MadeStraight(g, m, jokerPoint) || MadeSet(g, m, jokerPoint)
  }

  /** The groups taken so far and the rest are the hand, and each group is one by the rules. */
  ghost predicate Partial(groups: seq<CardGroup>, rest: seq<Card>, hand: seq<Card>, jokerPoint: int) {
    && AllCards(groups) + multiset(rest) == multiset(hand)
    && forall g :: g in groups ==> Made(g, multiset(hand), jokerPoint)
  }

  lemma PartialNone(hand: seq<Card>, jokerPoint: int)
    ensures Partial([], hand, hand, jokerPoint)
  {
  }

  /** Taking a group out of the rest. */
  lemma PartialNext(groups: seq<CardGroup>, rest: seq<Card>, hand: seq<Card>, jokerPoint: int, g: CardGroup)
    requires Partial(groups, rest, hand, jokerPoint) && Made(g, multiset(rest), jokerPoint)
    ensures Partial(groups + [g], Removed(rest, g.cards), hand, jokerPoint)
    ensures multiset(g.cards) + multiset(Removed(rest, g.cards)) == multiset(rest)
  {
    hide MadeStraight, MadeSet, Removed;
    RemovedCount(rest, g.cards);
    AllCardsAppend(groups, g);
    MadeOf(g, multiset(rest), multiset(hand), jokerPoint);
  }

  lemma MadeOf(g: CardGroup, m: multiset<Card>, all: multiset<Card>, jokerPoint: int)
    requires Made(g, m, jokerPoint) && m <= all
    ensures Made(g, all, jokerPoint) && multiset(g.cards) <= m && |g.cards| >= 3
  {
    if MadeStraight(g, m, jokerPoint) { MoreCards(g, m, all, jokerPoint); } else { MoreForSet(g, m, all, jokerPoint); }
  }

  /** The jokers stay those of the rest. */
  lemma JokersNext(cards: seq<Card>, jokers: seq<Card>, group: seq<Card>, jokerPoint: int)
    requires JokersOf(multiset(jokers), multiset(cards), jokerPoint)
    ensures JokersOf(multiset(Removed(jokers, group)), multiset(Removed(cards, group)), jokerPoint)
  {
    hide Removed;
    RemovedCount(cards, group);
    RemovedCount(jokers, group);
  }

  lemma {:induction false} InWithin(cards: seq<Card>, groups: seq<CardGroup>, g: CardGroup)
    ensures g in Within(cards, groups) <==> g in groups && multiset(g.cards) <= multiset(cards)
  {
    if groups != [] {
      var last := |groups| - 1;
      InWithin(cards, groups[..last], g);
      assert groups == groups[..last] + [groups[last]];
    }
  }

  lemma {:induction false} InPassingPure(groups: seq<CardGroup>, g: CardGroup)
    ensures g in PassingPure(groups) <==> g in groups && PassesAsPure(g.cards)
  {
    hide PassesAsPure;
    if groups != [] {
      var last := |groups| - 1;
      InPassingPure(groups[..last], g);
      assert groups == groups[..last] + [groups[last]];
    }
  }

  /** A group that still fits the cards left is made of them. */
  lemma WithinMade(cards: seq<Card>, m: multiset<Card>, groups: seq<CardGroup>, jokerPoint: int, g: CardGroup)
    requires g in Within(cards, groups) && Made(g, m, jokerPoint)
    ensures Made(g, multiset(cards), jokerPoint)
    ensures MadeStraight(g, m, jokerPoint) ==> MadeStraight(g, multiset(cards), jokerPoint)
  {
    InWithin(cards, groups, g);
    hide IsStraight, IsSet, PassesAsSet, PassesAsPure, SortCards;
  }

  // ----- complete combinations

  /** The lives a combination claims are there: a pure straight first, a straight next. */
  ghost predicate Lives(groups: seq<CardGroup>, firstLife: bool, secondLife: bool) {
    && (firstLife <==> groups != []) && (secondLife ==> |groups| >= 2) && (|groups| >= 2 ==> secondLife)
    && (firstLife ==> groups[0].kind == GROUP_STRAIGHT && PassesAsPure(groups[0].cards))
    && (secondLife ==> groups[1].kind == GROUP_STRAIGHT)
  }

  /** A combination: groups by the rules that with the loose cards are the hand; the lives it claims; its
      score that of the loose cards, which stand last as a group of their own. */
  ghost predicate CombinesAs(info: Info, made: seq<CardGroup>, hand: seq<Card>, jokerPoint: int) {
    && Partial(made, info.loose, hand, jokerPoint) && Lives(made, info.firstLife, info.secondLife)
    && info.score == TotalScore(info.loose, jokerPoint)
    && info.groups == made + (if made != [] && info.loose == [] then [] else [CardGroup(GROUP_INVALID, info.loose)])
  }

  ghost predicate IsCombination(info: Info, hand: seq<Card>, jokerPoint: int) {
    exists made :: CombinesAs(info, made, hand, jokerPoint)
  }

  lemma CompleteIs(made: seq<CardGroup>, rest: seq<Card>, hand: seq<Card>, jokerPoint: int, secondLife: bool)
    requires Partial(made, rest, hand, jokerPoint) && Lives(made, true, secondLife)
    ensures IsCombination(Complete(made, rest, jokerPoint, true, secondLife), hand, jokerPoint)
  {
    var info := Complete(made, rest, jokerPoint, true, secondLife);
    assert made + [] == made;
    assert CombinesAs(info, made, hand, jokerPoint);
  }

  lemma LivesNext(groups: seq<CardGroup>, g: CardGroup)
    requires Lives(groups, true, true)
    ensures Lives(groups + [g], true, true)
  {
  }

  lemma FourthFound(made: seq<CardGroup>, cards3: seq<Card>, hand: seq<Card>, jokerPoint: int, g: CardGroup, info: Info)
    requires Partial(made, cards3, hand, jokerPoint) && Lives(made, true, true)
    requires Made(g, multiset(cards3), jokerPoint) && info in WithFourth(made, cards3, jokerPoint)(g)
    ensures IsCombination(info, hand, jokerPoint)
  {
    hide Partial, Made, Lives, Removed, Complete;
    PartialNext(made, cards3, hand, jokerPoint, g);
    LivesNext(made, g);
    CompleteIs(made + [g], Removed(cards3, g.cards), hand, jokerPoint, true);
  }

  lemma ThirdFound(made: seq<CardGroup>, cards2: seq<Card>, found: seq<CardGroup>, hand: seq<Card>, jokerPoint: int,
                   g: CardGroup, info: Info)
    requires Partial(made, cards2, hand, jokerPoint) && Lives(made, true, true)
    requires forall f :: f in found ==> Made(f, multiset(cards2), jokerPoint)
    requires g in found && info in WithThird(made, cards2, found, jokerPoint)(g)
    ensures IsCombination(info, hand, jokerPoint)
  {
    hide Partial, Made, Lives, Removed, Complete, Within, WithFourth;
    var cards3 := Removed(cards2, g.cards);
    var more := Within(cards3, found);
    PartialNext(made, cards2, hand, jokerPoint, g);
    LivesNext(made, g);
    if cards3 == [] || more == [] {
      CompleteIs(made + [g], cards3, hand, jokerPoint, true);
    } else {
      var k := InFlatMap(more, WithFourth(made + [g], cards3, jokerPoint), info);
      InWithin(cards3, found, more[k]);
      WithinMade(cards3, multiset(cards2), found, jokerPoint, more[k]);
      FourthFound(made + [g], cards3, hand, jokerPoint, more[k], info);
    }
  }

  /** What is searched for behind the second group is made of the cards left. */
  lemma FoundMade(cards: seq<Card>, jokers: seq<Card>, jokerPoint: int, g: CardGroup)
    requires Dealt(multiset(cards)) && JokersOf(multiset(jokers), multiset(cards), jokerPoint)
    requires g in StraightGroups(cards, jokers, jokerPoint) + SetGroups(cards, jokers, jokerPoint)
    ensures Made(g, multiset(cards), jokerPoint)
  {
    hide Dealt, JokersOf, MadeStraight, MadeSet, StraightGroups, SetGroups;
    if g in StraightGroups(cards, jokers, jokerPoint) {
      StraightsAreStraights(cards, jokers, jokerPoint, g);
    } else {
      SetsAreSets(cards, jokers, jokerPoint, g);
    }
  }

  lemma LivesTwo(first: CardGroup, g: CardGroup)
    requires first.kind == GROUP_STRAIGHT && PassesAsPure(first.cards) && g.kind == GROUP_STRAIGHT
    ensures Lives([first], true, false) && Lives([first, g], true, true)
  {
  }

  lemma SecondFound(first: CardGroup, cards1: seq<Card>, jokers1: seq<Card>, hand: seq<Card>, jokerPoint: int,
                    g: CardGroup, info: Info)
    requires Dealt(multiset(cards1)) && JokersOf(multiset(jokers1), multiset(cards1), jokerPoint)
    requires Partial([first], cards1, hand, jokerPoint) && first.kind == GROUP_STRAIGHT && PassesAsPure(first.cards)
    requires MadeStraight(g, multiset(cards1), jokerPoint)
    requires info in WithSecond(first, cards1, jokers1, jokerPoint)(g)
    ensures IsCombination(info, hand, jokerPoint)
  {
    var cards2, jokers2 := Removed(cards1, g.cards), Removed(jokers1, g.cards);
    var found := StraightGroups(cards2, jokers2, jokerPoint) + SetGroups(cards2, jokers2, jokerPoint);
    hide Partial, MadeSet, Lives, Removed, Complete, WithThird, StraightGroups, SetGroups, Dealt, JokersOf,
         PassesAsPure;
    LivesTwo(first, g);
    PartialNext([first], cards1, hand, jokerPoint, g);
    assert [first] + [g] == [first, g];
    JokersNext(cards1, jokers1, g.cards, jokerPoint);
    DealtPart(multiset(cards1), multiset(cards2));
    hide MadeStraight;
    forall f | f in found
      ensures Made(f, multiset(cards2), jokerPoint)
    {
      FoundMade(cards2, jokers2, jokerPoint, f);
    }
    if cards2 == [] || found == [] {
      CompleteIs([first, g], cards2, hand, jokerPoint, true);
    } else {
      var k := InFlatMap(found, WithThird([first, g], cards2, found, jokerPoint), info);
      ThirdFound([first, g], cards2, found, hand, jokerPoint, found[k], info);
    }
  }

  lemma StraightKind(g: CardGroup, m: multiset<Card>, jokerPoint: int)
    requires MadeStraight(g, m, jokerPoint)
    ensures g.kind == GROUP_STRAIGHT && Made(g, m, jokerPoint)
  {
  }

  lemma FirstFound(hand: seq<Card>, jokers: seq<Card>, straights: seq<CardGroup>, jokerPoint: int, g: CardGroup,
                   info: Info)
    requires Dealt(multiset(hand)) && JokersOf(multiset(jokers), multiset(hand), jokerPoint)
    requires forall f :: f in straights ==> MadeStraight(f, multiset(hand), jokerPoint)
    requires g in straights && PassesAsPure(g.cards)
    requires info in WithFirst(hand, jokers, straights, jokerPoint)(g)
    ensures IsCombination(info, hand, jokerPoint)
  {
    var cards1, jokers1 := Removed(hand, g.cards), Removed(jokers, g.cards);
    var seconds := Within(cards1, straights);
    hide Partial, MadeStraight, MadeSet, Lives, Removed, Complete, WithSecond, Within, Dealt, JokersOf, PassesAsPure;
    StraightKind(g, multiset(hand), jokerPoint);
    PartialNone(hand, jokerPoint);
    PartialNext([], hand, hand, jokerPoint, g);
    assert [] + [g] == [g];
    JokersNext(hand, jokers, g.cards, jokerPoint);
    DealtPart(multiset(hand), multiset(cards1));
    if seconds == [] {
      LivesTwo(g, g);
      CompleteIs([g], cards1, hand, jokerPoint, false);
    } else {
      var k := InFlatMap(seconds, WithSecond(g, cards1, jokers1, jokerPoint), info);
      InWithin(cards1, straights, seconds[k]);
      WithinMade(cards1, multiset(hand), straights, jokerPoint, seconds[k]);
      SecondFound(g, cards1, jokers1, hand, jokerPoint, seconds[k], info);
    }
  }

  lemma WildJokers(hand: seq<Card>, jokerPoint: int)
    ensures JokersOf(multiset(WildCards(hand, jokerPoint)), multiset(hand), jokerPoint)
  {
    forall c
      ensures multiset(WildCards(hand, jokerPoint))[c] == if Wild(c, jokerPoint) then multiset(hand)[c] else 0
    {
      WildCount(hand, jokerPoint, c);
    }
  }

  /** Whatever the hand, every combination the search reaches partitions it: groups by the rules, each card
      of the hand in exactly one of them or loose, the lives there, the score that of the loose cards. */
  lemma CombinationsPartition(hand: seq<Card>, jokerPoint: int, info: Info)
    requires Dealt(multiset(hand)) && info in AllInfos(hand, jokerPoint)
    ensures IsCombination(info, hand, jokerPoint)
  {
    var jokers := WildCards(hand, jokerPoint);
    var straights := StraightGroups(hand, jokers, jokerPoint);
    var firsts := PassingPure(straights);
    hide WildCards, StraightGroups, PassingPure, WithFirst, Dealt, JokersOf, MadeStraight, Partial, PassesAsPure;
    WildJokers(hand, jokerPoint);
    if firsts == [] {
      PartialNone(hand, jokerPoint);
      assert [] + [CardGroup(GROUP_INVALID, hand)] == [CardGroup(GROUP_INVALID, hand)];
      assert CombinesAs(info, [], hand, jokerPoint);
    } else {
      forall f | f in straights
        ensures MadeStraight(f, multiset(hand), jokerPoint)
      {
        StraightsAreStraights(hand, jokers, jokerPoint, f);
      }
      var k := InFlatMap(firsts, WithFirst(hand, jokers, straights, jokerPoint), info);
      InPassingPure(straights, firsts[k]);
      FirstFound(hand, jokers, straights, jokerPoint, firsts[k], info);
    }
  }

  // ----- showing a combination

  /** No set among the groups has more than four cards. */
  predicate SetsUptoFour(groups: seq<CardGroup>) {
    forall g :: g in groups && g.kind == GROUP_THREE_KIND ==> |g.cards| <= 4
  }

  lemma {:induction false} OnePure(groups: seq<CardGroup>, i: nat)
    requires i < |groups| && PureGroup(groups[i])
    ensures Pures(groups) >= 1
  {
    hide PureGroup;
    if i < |groups| - 1 {
      OnePure(groups[..|groups| - 1], i);
    }
  }

  lemma {:induction false} TwoStraights(groups: seq<CardGroup>)
    requires |groups| >= 2 && groups[0].kind == GROUP_STRAIGHT && groups[1].kind == GROUP_STRAIGHT
    ensures Straights(groups) >= 2
  {
    if |groups| > 2 {
      TwoStraights(groups[..|groups| - 1]);
    } else {
      assert groups[..1][..0] == [];
    }
  }

  lemma MadeGroup(g: CardGroup, m: multiset<Card>, jokerPoint: int)
    requires Made(g, m, jokerPoint)
    ensures g.kind == GROUP_STRAIGHT ==> StraightGroup(g, jokerPoint)
    ensures g.kind == GROUP_STRAIGHT && PassesAsPure(g.cards) ==> PureGroup(g)
    ensures g.kind == GROUP_THREE_KIND ==> (SetGroup(g, jokerPoint) <==> |g.cards| <= 4)
    ensures g.kind == GROUP_STRAIGHT || g.kind == GROUP_THREE_KIND
  {
    hide IsStraight, IsSet, PassesAsSet, SortCards, PassesAsPure;
  }

  lemma {:induction false} LooseLast(made: seq<CardGroup>, loose: CardGroup, jokerPoint: int)
    requires (forall g :: g in made ==> g.kind != GROUP_INVALID) && loose.kind == GROUP_INVALID
    ensures LooseScore(made + [loose], jokerPoint) == TotalScore(loose.cards, jokerPoint)
  {
    assert (made + [loose])[..|made|] == made;
    NoLooseScore(made, jokerPoint);
    SortedScore(loose.cards, jokerPoint);
  }

  /** check_lose_declare takes a combination, at its own score, if and only if no set in it has more than
      four cards. */
  lemma ShownIffSetsUptoFour(info: Info, hand: seq<Card>, jokerPoint: int)
    requires IsCombination(info, hand, jokerPoint)
    ensures Shows(info.groups, jokerPoint) <==> SetsUptoFour(info.groups)
    ensures LooseScore(info.groups, jokerPoint) == info.score
  {
    var made :| CombinesAs(info, made, hand, jokerPoint);
    hide Made, StraightGroup, SetGroup, PureGroup, PassesAsPure, LooseScore, TotalScore, Pures, Straights, AllCards;
    var loose := CardGroup(GROUP_INVALID, info.loose);
    forall g | g in made
      ensures Made(g, multiset(hand), jokerPoint) && g.kind != GROUP_INVALID
    {
      MadeGroup(g, multiset(hand), jokerPoint);
    }
    if info.groups == made {
      NoLooseScore(made, jokerPoint);
      NothingScore(jokerPoint);
    } else {
      LooseLast(made, loose, jokerPoint);
    }
    ShowsMade(info.groups, made, hand, jokerPoint, info.firstLife, info.secondLife);
  }

  lemma NothingScore(jokerPoint: int)
    ensures TotalScore([], jokerPoint) == 0
  {
  }

  /** The lives let every straight and every set of up to four cards be shown. */
  lemma ShowsMade(groups: seq<CardGroup>, made: seq<CardGroup>, hand: seq<Card>, jokerPoint: int,
                  firstLife: bool, secondLife: bool)
    requires made <= groups && Lives(made, firstLife, secondLife)
    requires forall g :: g in made ==> Made(g, multiset(hand), jokerPoint)
    requires forall g :: g in groups ==> g in made || g.kind == GROUP_INVALID
    ensures Shows(groups, jokerPoint) <==> SetsUptoFour(groups)
  {
    hide Made, StraightGroup, SetGroup, PureGroup, PassesAsPure, Pures, Straights;
    forall g | g in made
      ensures g.kind == GROUP_STRAIGHT ==> StraightGroup(g, jokerPoint)
      ensures g.kind == GROUP_THREE_KIND ==> (SetGroup(g, jokerPoint) <==> |g.cards| <= 4) && |made| >= 2
      ensures g.kind == GROUP_STRAIGHT || g.kind == GROUP_THREE_KIND
    {
      MadeGroup(g, multiset(hand), jokerPoint);
    }
    if made != [] {
      MadeGroup(made[0], multiset(hand), jokerPoint);
      OnePure(groups, 0);
    }
    if |made| >= 2 { TwoStraights(groups); }
    SetGroupKind(groups, jokerPoint);
  }

  lemma SetGroupKind(groups: seq<CardGroup>, jokerPoint: int)
    ensures forall g :: g in groups && SetGroup(g, jokerPoint) ==> g.kind == GROUP_THREE_KIND
    ensures forall g :: g in groups && StraightGroup(g, jokerPoint) ==> g.kind == GROUP_STRAIGHT
  {
  }
}
