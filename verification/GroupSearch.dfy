/** The search for groups in a hand, server/server/gamesvr/Combination.cpp: first what it finds, as
    functions; then the loops over vectors. */
module GroupSearch {
  import opened CardDealer
  import opened GroupRules
  import opened Choices

  // ----- lists

  ghost function FlatMap<T, U>(list: seq<T>, f: T -> seq<U>): seq<U> {
    if list == [] then [] else FlatMap(list[..|list| - 1], f) + f(list[|list| - 1])
  }

  lemma FlatMapNext<T, U>(list: seq<T>, f: T -> seq<U>, i: nat)
    requires i < |list|
    ensures FlatMap(list[..i + 1], f) == FlatMap(list[..i], f) + f(list[i])
  {
    assert list[..i + 1][..i] == list[..i];
  }

  lemma FlatMapEnds<T, U>(list: seq<T>, f: T -> seq<U>)
    ensures FlatMap([], f) == [] && FlatMap(list[..|list|], f) == FlatMap(list, f)
  {
    assert list[..|list|] == list;
  }

  // ----- jokers

  function WildCards(cards: seq<Card>, jokerPoint: int): (r: seq<Card>) {
    if cards == [] then []
    else
      var last := |cards| - 1;
      WildCards(cards[..last], jokerPoint) + (if Wild(cards[last], jokerPoint) then [cards[last]] else [])
  }

  /** Every choice of 1 to hi of the cards. */
  function Combines(cards: seq<Card>, hi: nat): seq<seq<Card>> {
    if hi == 0 then [] else Combines(cards, hi - 1) + Choose(cards, hi)
  }

  function AllCombines(cards: seq<Card>): seq<seq<Card>> { Combines(cards, |cards|) }

  // ----- straights

  /** The points missing between neighbours, an ace in front counting as one. */
  function Missing(cards: seq<Card>): int {
    var last := |cards| - 1;
    if |cards| < 2 then 0
    else
      Missing(cards[..last])
      + (if cards[last - 1].point == ACE then cards[last].point - 2 else cards[last].point - cards[last - 1].point - 1)
  }

  /** How many jokers it takes: the gaps, more to make three cards, one at least. */
  function FillNeed(cards: seq<Card>): int {
    var gaps := Missing(cards);
    var total := |cards| + gaps;
    var fill := if total < 3 then gaps + (3 - total) else gaps;
    if fill == 0 then 1 else fill
  }

  ghost function Filled(cards: seq<Card>, size: int): seq<Card> -> seq<CardGroup> {
    (combine: seq<Card>) =>
      if |combine| != size then [] else [CardGroup(GROUP_STRAIGHT, SortCards(cards + combine))]
  }

  lemma FilledAt(cards: seq<Card>, size: int, combine: seq<Card>)
    ensures Filled(cards, size)(combine)
         == if |combine| != size then [] else [CardGroup(GROUP_STRAIGHT, SortCards(cards + combine))]
  {
  }

  /** The cards with lo to hi jokers. */
  ghost function FilledUpto(cards: seq<Card>, combines: seq<seq<Card>>, lo: int, hi: int): seq<CardGroup>
    decreases hi - lo
  {
    if hi < lo then [] else FilledUpto(cards, combines, lo, hi - 1) + FlatMap(combines, Filled(cards, hi))
  }

  ghost function WithJokers(cards: seq<Card>, jokers: seq<Card>): seq<CardGroup> {
    var need := FillNeed(cards);
    if need > |jokers| || need == 0 then [] else FilledUpto(cards, AllCombines(jokers), need, |jokers|)
  }

  ghost function PureAlone(): seq<Card> -> seq<CardGroup> {
    (hand: seq<Card>) => if PassesAsPure(hand) then [CardGroup(GROUP_STRAIGHT, hand)] else []
  }

  /** The straights one choice of natural cards gives: alone, with jokers, and with its ace in front. */
  ghost function HandStraights(jokers: seq<Card>): seq<Card> -> seq<CardGroup> {
    (hand: seq<Card>) =>
      PureAlone()(hand) + WithJokers(hand, jokers)
      + (if |hand| > 1 && hand[|hand| - 1].point == ACE then
           WithJokers([hand[|hand| - 1]] + hand[..|hand| - 1], jokers)
         else [])
  }

  ghost function StraightsUpto(flush: seq<Card>, jokers: seq<Card>, n: nat): seq<CardGroup> {
    if n == 0 then []
    else StraightsUpto(flush, jokers, n - 1) + FlatMap(Choose(flush, n), HandStraights(jokers))
  }

  ghost function PuresUpto(repeats: seq<Card>, n: nat): seq<CardGroup> {
    if n == 0 then [] else PuresUpto(repeats, n - 1) + FlatMap(Choose(repeats, n), PureAlone())
  }

  ghost function FlushStraights(flush: seq<Card>, repeats: seq<Card>, jokers: seq<Card>): seq<CardGroup> {
    StraightsUpto(flush, jokers, |flush| + |jokers|) + PuresUpto(repeats, |repeats|)
  }

  /** The cards of one colour. */
  function Flush(cards: seq<Card>, color: nat): seq<Card> {
    if cards == [] then []
    else
      var last := |cards| - 1;
      Flush(cards[..last], color) + (if cards[last].color == color then [cards[last]] else [])
  }

  /** The first natural card of each point, from sorted cards. */
  function Firsts(cards: seq<Card>, jokerPoint: int): seq<Card> {
    if cards == [] then []
    else
      var last := |cards| - 1;
      var r := Firsts(cards[..last], jokerPoint);
      if Wild(cards[last], jokerPoint) || (r != [] && r[|r| - 1].point == cards[last].point) then r
      else r + [cards[last]]
  }

  /** The natural cards of a point already seen. */
  function Repeats(cards: seq<Card>, jokerPoint: int): seq<Card> {
    if cards == [] then []
    else
      var last := |cards| - 1;
      var r := Firsts(cards[..last], jokerPoint);
      Repeats(cards[..last], jokerPoint)
      + (if !Wild(cards[last], jokerPoint) && r != [] && r[|r| - 1].point == cards[last].point then [cards[last]]
         else [])
  }

  ghost function ColorStraights(cards: seq<Card>, jokers: seq<Card>, jokerPoint: int, color: nat): seq<CardGroup> {
    var flush := SortCards(Flush(cards, color));
    FlushStraights(Firsts(flush, jokerPoint), Repeats(flush, jokerPoint), jokers)
  }

  /** The straights of the colours below the given one. */
  ghost function ColorsUpto(cards: seq<Card>, jokers: seq<Card>, jokerPoint: int, color: nat): seq<CardGroup> {
    if color == 0 then []
    else ColorsUpto(cards, jokers, jokerPoint, color - 1) + ColorStraights(cards, jokers, jokerPoint, color - 1)
  }

  ghost function JokersAlone(): seq<Card> -> seq<CardGroup> {
    (combine: seq<Card>) => if |combine| < 3 then [] else [CardGroup(GROUP_STRAIGHT, combine)]
  }

  const COLORS := 256

  ghost function StraightGroups(cards: seq<Card>, jokers: seq<Card>, jokerPoint: int): seq<CardGroup> {
    ColorsUpto(cards, jokers, jokerPoint, COLORS) + FlatMap(AllCombines(jokers), JokersAlone())
  }

  // ----- sets

  ghost function SetWith(hand: seq<Card>): seq<Card> -> seq<CardGroup> {
    (combine: seq<Card>) => [CardGroup(GROUP_THREE_KIND, hand + combine)]
  }

  ghost function HandSets(jokers: seq<Card>): seq<Card> -> seq<CardGroup> {
    (hand: seq<Card>) =>
      (if |hand| > 2 then [CardGroup(GROUP_THREE_KIND, hand)] else []) + FlatMap(AllCombines(jokers), SetWith(hand))
  }

  ghost function SetAlone(): seq<Card> -> seq<CardGroup> {
    (hand: seq<Card>) => [CardGroup(GROUP_THREE_KIND, hand)]
  }

  /** The sets of 2 to 4 of the cards of a point with jokers, and of 3 or 4 of its repeated cards. */
  ghost function PointSets(pops: seq<Card>, repeats: seq<Card>, jokers: seq<Card>): seq<CardGroup> {
    FlatMap(Choose(pops, 2), HandSets(jokers)) + FlatMap(Choose(pops, 3), HandSets(jokers))
    + FlatMap(Choose(pops, 4), HandSets(jokers))
    + FlatMap(Choose(repeats, 3), SetAlone()) + FlatMap(Choose(repeats, 4), SetAlone())
  }

  ghost function SetsWhenTwo(pops: seq<Card>, repeats: seq<Card>, jokers: seq<Card>): seq<CardGroup> {
    if |pops| >= 2 then PointSets(pops, repeats, jokers) else []
  }

  /** The scan over sorted cards, with the cards of the current point popped so far. */
  ghost function SetsFrom(left: seq<Card>, pops: seq<Card>, repeats: seq<Card>, jokers: seq<Card>, jokerPoint: int)
    : seq<CardGroup>
  {
    if left == [] then SetsWhenTwo(pops, repeats, jokers)
    else
      var c, rest := left[0], left[1..];
      if (pops == [] || pops[0].point == c.point) && !Wild(c, jokerPoint) then
        if c in pops then SetsFrom(rest, pops, repeats + [c], jokers, jokerPoint)
        else SetsFrom(rest, pops + [c], repeats, jokers, jokerPoint)
      else SetsWhenTwo(pops, repeats, jokers) + SetsFrom(rest, [c], [], jokers, jokerPoint)
  }

  ghost function SetGroups(cards: seq<Card>, jokers: seq<Card>, jokerPoint: int): seq<CardGroup> {
    SetsFrom(SortCards(cards), [], [], jokers, jokerPoint)
  }

  // ----- taking groups out

  function Find(cards: seq<Card>, c: Card): (i: nat)
    ensures i <= |cards| && (i < |cards| ==> cards[i] == c) && (i == |cards| <==> c !in cards)
  {
    if cards == [] then 0 else if cards[0] == c then 0 else 1 + Find(cards[1..], c)
  }

  function Erased(cards: seq<Card>, c: Card): (r: seq<Card>)
  {
    var i := Find(cards, c);
    if i < |cards| then cards[..i] + cards[i + 1..] else cards
  }

  /** The first occurrence of each card of the group taken out. */
  function Removed(cards: seq<Card>, group: seq<Card>): seq<Card> {
    if group == [] then cards else Erased(Removed(cards, group[..|group| - 1]), group[|group| - 1])
  }

  /** The groups that can be made of the cards. */
  ghost function Within(cards: seq<Card>, groups: seq<CardGroup>): seq<CardGroup> {
    if groups == [] then []
    else
      var last := |groups| - 1;
      Within(cards, groups[..last]) + (if multiset(groups[last].cards) <= multiset(cards) then [groups[last]] else [])
  }

  ghost function PassingPure(groups: seq<CardGroup>): seq<CardGroup> {
    if groups == [] then []
    else
      var last := |groups| - 1;
      PassingPure(groups[..last]) + (if PassesAsPure(groups[last].cards) then [groups[last]] else [])
  }

  // ----- combinations

  /** CombinationInfo. */
  datatype Info = Info(score: nat, groups: seq<CardGroup>, loose: seq<Card>, firstLife: bool, secondLife: bool)

  /** The groups found, and the rest of the hand as a loose group when there is one. */
  function Complete(groups: seq<CardGroup>, rest: seq<Card>, jokerPoint: int, firstLife: bool, secondLife: bool): Info {
    if rest == [] then Info(0, groups, [], firstLife, secondLife)
    else
      Info(TotalScore(rest, jokerPoint), groups + [CardGroup(GROUP_INVALID, rest)], rest, firstLife, secondLife)
  }

  ghost function WithFourth(groups: seq<CardGroup>, cards3: seq<Card>, jokerPoint: int): CardGroup -> seq<Info> {
    (g: CardGroup) => [Complete(groups + [g], Removed(cards3, g.cards), jokerPoint, true, true)]
  }

  ghost function WithThird(groups: seq<CardGroup>, cards2: seq<Card>, found: seq<CardGroup>, jokerPoint: int)
    : CardGroup -> seq<Info>
  {
    (g: CardGroup) =>
      var cards3 := Removed(cards2, g.cards);
      var more := Within(cards3, found);
      if cards3 == [] || more == [] then [Complete(groups + [g], cards3, jokerPoint, true, true)]
      else FlatMap(more, WithFourth(groups + [g], cards3, jokerPoint))
  }

  ghost function WithSecond(first: CardGroup, cards1: seq<Card>, jokers1: seq<Card>, jokerPoint: int)
    : CardGroup -> seq<Info>
  {
    (g: CardGroup) =>
      var cards2, jokers2 := Removed(cards1, g.cards), Removed(jokers1, g.cards);
      var found := StraightGroups(cards2, jokers2, jokerPoint) + SetGroups(cards2, jokers2, jokerPoint);
      if cards2 == [] || found == [] then [Complete([first, g], cards2, jokerPoint, true, true)]
      else FlatMap(found, WithThird([first, g], cards2, found, jokerPoint))
  }

  ghost function WithFirst(hand: seq<Card>, jokers: seq<Card>, straights: seq<CardGroup>, jokerPoint: int)
    : CardGroup -> seq<Info>
  {
    (g: CardGroup) =>
      var cards1, jokers1 := Removed(hand, g.cards), Removed(jokers, g.cards);
      var seconds := Within(cards1, straights);
      if cards1 == [] then []
      else if seconds == [] then [Complete([g], cards1, jokerPoint, true, false)]
      else FlatMap(seconds, WithSecond(g, cards1, jokers1, jokerPoint))
  }

  /** Every combination the nested loops reach when nothing stops them. */
  ghost function AllInfos(hand: seq<Card>, jokerPoint: int): seq<Info> {
    var jokers := WildCards(hand, jokerPoint);
    var straights := StraightGroups(hand, jokers, jokerPoint);
    var firsts := PassingPure(straights);
    if firsts == [] then
      [Info(TotalScore(hand, jokerPoint), [CardGroup(GROUP_INVALID, hand)], hand, false, false)]
    else FlatMap(firsts, WithFirst(hand, jokers, straights, jokerPoint))
  }

  /** A combination with both lives and few enough loose cards ends the search. */
  predicate Stops(info: Info, stop: nat) { info.secondLife && |info.loose| <= stop }

  ghost predicate Stopped(infos: seq<Info>, stop: nat) { exists k :: 0 <= k < |infos| && Stops(infos[k], stop) }

  /** The list cut behind the first combination that ends the search. */
  ghost function CutAt(infos: seq<Info>, stop: nat): seq<Info> {
    if infos == [] then []
    else if Stopped(infos[..|infos| - 1], stop) then CutAt(infos[..|infos| - 1], stop)
    else infos
  }
}
