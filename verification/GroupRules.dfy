/** The rules of server/server/gamesvr/Combination.cpp for a group of cards: straights, pure straights and
    sets, what the code accepts for each and when that is right. */
module GroupRules {
  import opened CardDealer

  /** is_joker: the printed jokers and the cards of the point drawn for the round. */
  predicate Wild(c: Card, jokerPoint: int) { c.point == jokerPoint || c.point >= JOKER1 }

  function Naturals(cards: seq<Card>, jokerPoint: int): (r: seq<Card>) {
    if cards == [] then []
    else
      var last := |cards| - 1;
      Naturals(cards[..last], jokerPoint) + (if Wild(cards[last], jokerPoint) then [] else [cards[last]])
  }

  /** operator<, or equality. */
  predicate Upto(a: Card, b: Card) { a.point < b.point || (a.point == b.point && a.color <= b.color) }

  ghost predicate Sorted(cards: seq<Card>) { forall i, j :: 0 <= i < j < |cards| ==> Upto(cards[i], cards[j]) }

  // ----- sets

  /** The neighbours at i - 1 and i are both natural. */
  predicate NaturalPair(cards: seq<Card>, jokerPoint: int, i: int) {
    0 < i < |cards| && !Wild(cards[i - 1], jokerPoint) && !Wild(cards[i], jokerPoint)
  }

  predicate SameSet(a: Card, b: Card) { a.point == b.point && a.color != b.color }

  /** What the code accepts as a set: neighbouring natural cards agree. */
  ghost predicate PassesAsSet(cards: seq<Card>, jokerPoint: int) {
    && 3 <= |cards| <= 4 && |Naturals(cards, jokerPoint)| >= 2
    && forall i :: NaturalPair(cards, jokerPoint, i) ==> SameSet(cards[i - 1], cards[i])
  }

  /** A set: three or four cards, two or more natural, the natural ones of one point and of different
      colours. */
  ghost predicate IsSet(cards: seq<Card>, jokerPoint: int) {
    && 3 <= |cards| <= 4 && |Naturals(cards, jokerPoint)| >= 2
    && forall i, j :: 0 <= i < j < |cards| && !Wild(cards[i], jokerPoint) && !Wild(cards[j], jokerPoint) ==>
         SameSet(cards[i], cards[j])
  }

  /** No wild card stands between two natural ones. */
  ghost predicate NaturalsTogether(cards: seq<Card>, jokerPoint: int) {
    forall i, j, k :: 0 <= i < j < k < |cards| && !Wild(cards[i], jokerPoint) && !Wild(cards[k], jokerPoint) ==>
      !Wild(cards[j], jokerPoint)
  }

  lemma NaturalsSplit(cards: seq<Card>, jokerPoint: int, n: nat)
    requires n < |cards|
    ensures Naturals(cards[..n + 1], jokerPoint)
         == Naturals(cards[..n], jokerPoint) + (if Wild(cards[n], jokerPoint) then [] else [cards[n]])
  {
    assert cards[..n + 1][..n] == cards[..n];
  }

  /** is_cards_three_of_kind. */
  method IsCardsThreeOfKind(group: seq<Card>, jokerPoint: int) returns (ok: bool)
    ensures ok <==> PassesAsSet(group, jokerPoint)
  {
    hide Naturals;
    if |group| < 3 || |group| > 4 { return false; }
    var unJokerCount, last, isLastJoker := 0, group[0], true;
    assert group[..0] == [];
    NoNaturals(jokerPoint);
    NaturalsSplit(group, jokerPoint, 0);
    if !Wild(last, jokerPoint) {
      isLastJoker := false;
      unJokerCount := unJokerCount + 1;
    }
    var i := 1;
    while i < |group|
      invariant 1 <= i <= |group| && last == group[i - 1] && isLastJoker == Wild(last, jokerPoint)
      invariant unJokerCount == |Naturals(group[..i], jokerPoint)|
      invariant forall k :: NaturalPair(group, jokerPoint, k) && k < i ==> SameSet(group[k - 1], group[k])
    {
      NaturalsSplit(group, jokerPoint, i);
      if Wild(group[i], jokerPoint) {
        isLastJoker, last, i := true, group[i], i + 1;
        continue;
      }
      unJokerCount := unJokerCount + 1;
      if !isLastJoker {
        if group[i].point != last.point || group[i].color == last.color {
          assert NaturalPair(group, jokerPoint, i);
          return false;
        }
      }
      isLastJoker, last, i := false, group[i], i + 1;
    }
    assert group[..i] == group;
    return unJokerCount >= 2;
  }

  lemma NoNaturals(jokerPoint: int)
    ensures Naturals([], jokerPoint) == []
  {
  }

  /** Among sorted cards: a set is accepted, and what is accepted is a set exactly when no wild card
      stands between two natural ones. */
  lemma SetIffNaturalsTogether(cards: seq<Card>, jokerPoint: int)
    requires Sorted(cards)
    ensures IsSet(cards, jokerPoint) <==> PassesAsSet(cards, jokerPoint) && NaturalsTogether(cards, jokerPoint)
  {
    hide Naturals;
    if IsSet(cards, jokerPoint) {
      forall i, j, k | 0 <= i < j < k < |cards| && !Wild(cards[i], jokerPoint) && !Wild(cards[k], jokerPoint)
        ensures !Wild(cards[j], jokerPoint)
      {
        assert SameSet(cards[i], cards[k]) && Upto(cards[i], cards[j]) && Upto(cards[j], cards[k]);
      }
    } else if PassesAsSet(cards, jokerPoint) && NaturalsTogether(cards, jokerPoint) {
      forall i, j | 0 <= i < j < |cards| && !Wild(cards[i], jokerPoint) && !Wild(cards[j], jokerPoint)
        ensures SameSet(cards[i], cards[j])
      {
        NaturalRun(cards, jokerPoint, i, j);
      }
    }
  }

  /** Between two natural cards the colours rise one by one. */
  lemma {:induction false} NaturalRun(cards: seq<Card>, jokerPoint: int, i: nat, j: nat)
    requires Sorted(cards) && PassesAsSet(cards, jokerPoint) && NaturalsTogether(cards, jokerPoint)
    requires i < j < |cards| && !Wild(cards[i], jokerPoint) && !Wild(cards[j], jokerPoint)
    ensures cards[i].point == cards[j].point && cards[i].color < cards[j].color
  {
    assert !Wild(cards[j - 1], jokerPoint);
    assert NaturalPair(cards, jokerPoint, j) && Upto(cards[j - 1], cards[j]);
    if i < j - 1 {
      NaturalRun(cards, jokerPoint, i, j - 1);
    }
  }

  const SPLIT_SET: seq<Card> := [Card(1, 5), Card(2, 6), Card(3, 7)]

  /** Five, wild six, seven passes as a set. */
  lemma SplitSetPasses()
    ensures Sorted(SPLIT_SET) && PassesAsSet(SPLIT_SET, 6) && !IsSet(SPLIT_SET, 6)
  {
    assert SPLIT_SET[..2] == [Card(1, 5), Card(2, 6)] && SPLIT_SET[..2][..1] == [Card(1, 5)];
    assert SPLIT_SET[..2][..1][..0] == [];
    assert !SameSet(SPLIT_SET[0], SPLIT_SET[2]);
  }

  // ----- pure straights

  /** Cards of one colour, none a printed joker, each one point above the one before. */
  ghost predicate Consecutive(cards: seq<Card>) {
    forall i :: 0 < i < |cards| ==> Follows(cards[i - 1], cards[i]) && cards[i - 1].point + 1 == cards[i].point
  }

  predicate Follows(a: Card, b: Card) { a.color == b.color && a.point < JOKER1 && b.point < JOKER1 }

  /** After n consecutive cards from a two comes an ace that does not continue them. */
  ghost predicate AceAt(cards: seq<Card>, n: int) {
    && 0 < n < |cards| && Consecutive(cards[..n]) && cards[0].point == 2
    && Follows(cards[n - 1], cards[n]) && cards[n].point == ACE && cards[n - 1].point + 1 != ACE
  }

  /** What the code accepts as a pure straight: it stops at such an ace. */
  ghost predicate PassesAsPure(cards: seq<Card>) {
    |cards| >= 3 && (Consecutive(cards) || exists n :: AceAt(cards, n))
  }

  /** A straight without wild cards: three or more consecutive cards, or consecutive ones from the two on
      with one ace behind them standing for the point below. No point comes twice. */
  ghost predicate IsPure(cards: seq<Card>) {
    |cards| >= 3 && (Consecutive(cards) || (AceAt(cards, |cards| - 1) && cards[|cards| - 2].point < ACE))
  }

  /** is_cards_pure_straight. */
  method IsCardsPureStraight(cards: seq<Card>) returns (ok: bool)
    ensures ok <==> PassesAsPure(cards)
  {
    if |cards| < 3 { return false; }
    var last := cards[0];
    var i := 1;
    while i < |cards|
      invariant 1 <= i <= |cards| && last == cards[i - 1] && Consecutive(cards[..i])
    {
      if last.color != cards[i].color || last.point >= JOKER1 || cards[i].point >= JOKER1 {
        NotPureBeyond(cards, i);
        return false;
      }
      if last.point + 1 != cards[i].point {
        NotPureBeyond(cards, i);
        if cards[i].point != ACE { return false; }
        return cards[0].point == 2;
      }
      last, i := cards[i], i + 1;
    }
    assert cards[..i] == cards;
    return true;
  }

  /** Where the consecutive cards end the verdict falls. */
  lemma NotPureBeyond(cards: seq<Card>, i: int)
    requires 0 < i < |cards| && Consecutive(cards[..i])
    requires !(Follows(cards[i - 1], cards[i]) && cards[i - 1].point + 1 == cards[i].point)
    ensures !Consecutive(cards)
    ensures (exists n :: AceAt(cards, n)) <==> AceAt(cards, i)
  {
    forall n | AceAt(cards, n)
      ensures n == i
    {
      assert forall k :: 0 <= k < i ==> cards[..i][k] == cards[k];
      assert forall k :: 0 <= k < n ==> cards[..n][k] == cards[k];
    }
  }

  /** Of sorted cards that pass, exactly those with the last but one below the ace are a pure straight. */
  lemma PureIffOneHighCard(cards: seq<Card>)
    requires Sorted(cards)
    ensures IsPure(cards) <==> PassesAsPure(cards) && cards[|cards| - 2].point < ACE
  {
    if |cards| >= 3 {
      var last := |cards| - 1;
      if Consecutive(cards) {
        assert cards[last - 1].point + 1 == cards[last].point;
      } else {
        forall n | AceAt(cards, n) && n < last
          ensures cards[last - 1].point >= ACE
        {
          assert n == last - 1 || Upto(cards[n], cards[last - 1]);
        }
        if AceAt(cards, last) {
          assert Upto(cards[last - 1], cards[last]);
        }
      }
    }
  }

  const TWO_ACES: seq<Card> := [Card(1, 2), Card(1, ACE), Card(3, ACE)]

  /** A two and two aces, one of another colour, pass as a pure straight. */
  lemma TwoAcesPass()
    ensures Sorted(TWO_ACES) && PassesAsPure(TWO_ACES) && !IsPure(TWO_ACES)
  {
    assert AceAt(TWO_ACES, 1);
    assert TWO_ACES[0].point + 1 != TWO_ACES[1].point;
  }

  // ----- sorting

  function Inserted(cards: seq<Card>, c: Card): (r: seq<Card>)
    ensures multiset(r) == multiset(cards) + multiset{c} && |r| == |cards| + 1
  {
    if cards == [] then [c]
    else
      var last := |cards| - 1;
      assert cards == cards[..last] + [cards[last]];
      if Upto(cards[last], c) then cards + [c] else Inserted(cards[..last], c) + [cards[last]]
  }

  /** std::sort, whose result is determined because cards that compare equal are equal. */
  function SortCards(cards: seq<Card>): (r: seq<Card>)
    ensures multiset(r) == multiset(cards) && |r| == |cards|
  {
    if cards == [] then []
    else
      var last := |cards| - 1;
      assert cards == cards[..last] + [cards[last]];
      Inserted(SortCards(cards[..last]), cards[last])
  }

  lemma SortedAppend(cards: seq<Card>, c: Card)
    requires Sorted(cards) && (cards != [] ==> Upto(cards[|cards| - 1], c))
    ensures Sorted(cards + [c])
  {
  }

  lemma {:induction false} InsertedSorted(cards: seq<Card>, c: Card)
    requires Sorted(cards)
    ensures Sorted(Inserted(cards, c))
  {
    if cards != [] {
      var init, last := cards[..|cards| - 1], cards[|cards| - 1];
      InsertedSorted(init, c);
      var r := Inserted(init, c);
      if !Upto(last, c) {
        forall k | 0 <= k < |r|
          ensures Upto(r[k], last)
        {
          assert r[k] in multiset(r);
        }
        SortedAppend(r, last);
      } else {
        SortedAppend(cards, c);
      }
    }
  }

  lemma {:induction false} SortCardsSorted(cards: seq<Card>)
    ensures Sorted(SortCards(cards))
  {
    if cards != [] {
      SortCardsSorted(cards[..|cards| - 1]);
      InsertedSorted(SortCards(cards[..|cards| - 1]), cards[|cards| - 1]);
    }
  }

  // ----- straights

  /** The cards are of one colour and of different points, and `size` consecutive points hold them all. */
  ghost predicate Fits(cards: multiset<Card>, size: nat) {
    && (forall c, d :: c in cards && d in cards ==> c.color == d.color && (c.point == d.point ==> c == d))
    && (forall c :: c in cards ==> cards[c] == 1)
    && exists lo: int :: InWindow(cards, lo, size)
  }

  ghost predicate InWindow(cards: multiset<Card>, lo: int, size: nat) {
    forall c :: c in cards ==> lo <= c.point < lo + size
  }

  /** The ace as the point below the two. */
  function Low(c: Card): Card { if c.point == ACE then Card(c.color, 1) else c }

  function Lowered(cards: seq<Card>): (r: seq<Card>)
    ensures |r| == |cards| && forall k :: 0 <= k < |cards| ==> r[k] == Low(cards[k])
  {
    seq(|cards|, k requires 0 <= k < |cards| => Low(cards[k]))
  }

  /** A straight: three or more cards whose natural ones, the ace high or low, the wild ones complete to
      consecutive points of one colour. */
  ghost predicate IsStraight(cards: seq<Card>, jokerPoint: int) {
    var naturals := Naturals(cards, jokerPoint);
    |cards| >= 3 && (Fits(multiset(naturals), |cards|) || Fits(multiset(Lowered(naturals)), |cards|))
  }

  /** Neighbours agree in colour and differ in point. */
  ghost predicate Chain(cards: seq<Card>) { forall i :: 0 < i < |cards| ==> Linked(cards[i - 1], cards[i]) }

  predicate Linked(a: Card, b: Card) { a.color == b.color && a.point != b.point }

  /** The points missing between neighbours. */
  function Gaps(cards: seq<Card>): int {
    var last := |cards| - 1;
    if |cards| < 2 then 0 else Gaps(cards[..last]) + cards[last].point - cards[last - 1].point - 1
  }

  lemma {:induction false} GapsTelescope(cards: seq<Card>)
    requires cards != []
    ensures Gaps(cards) == cards[|cards| - 1].point - cards[0].point - (|cards| - 1)
  {
    if |cards| >= 2 {
      GapsTelescope(cards[..|cards| - 1]);
    }
  }

  lemma {:induction false} ChainRises(cards: seq<Card>, i: nat, j: nat)
    requires Sorted(cards) && Chain(cards) && i < j < |cards|
    ensures cards[i].color == cards[j].color && cards[i].point < cards[j].point
  {
    assert Linked(cards[j - 1], cards[j]) && Upto(cards[j - 1], cards[j]);
    if i < j - 1 {
      ChainRises(cards, i, j - 1);
    }
  }

  /** Cards that differ pairwise occur once each. */
  lemma {:induction false} DistinctOnce(cards: seq<Card>)
    ensures (forall i, j :: 0 <= i < j < |cards| ==> cards[i] != cards[j])
       <==> (forall c :: c in multiset(cards) ==> multiset(cards)[c] == 1)
  {
    if cards != [] {
      var last := |cards| - 1;
      DistinctOnce(cards[..last]);
      assert cards == cards[..last] + [cards[last]];
      if i :| 0 <= i < last && cards[i] == cards[last] {
        assert cards[..last][i] == cards[last];
        assert multiset(cards)[cards[last]] >= 2;
      } else {
        assert cards[last] !in cards[..last];
        if forall c :: c in multiset(cards) ==> multiset(cards)[c] == 1 {
          forall c | c in multiset(cards[..last])
            ensures multiset(cards[..last])[c] == 1
          {
            assert c in multiset(cards) && c != cards[last];
          }
        }
      }
    }
  }

  /** Sorted cards fit exactly when neighbours are linked and the gaps are no more than the places left. */
  lemma FitsIffChain(cards: seq<Card>, size: nat)
    requires Sorted(cards) && |cards| <= size
    ensures Fits(multiset(cards), size) <==> Chain(cards) && Gaps(cards) <= size - |cards|
  {
    if cards == [] {
      assert InWindow(multiset(cards), 0, size);
    } else {
      GapsTelescope(cards);
      var first, last := cards[0], cards[|cards| - 1];
      if Chain(cards) && Gaps(cards) <= size - |cards| {
        ChainFits(cards, size);
      }
      if Fits(multiset(cards), size) {
        assert first in multiset(cards) && last in multiset(cards);
        DistinctOnce(cards);
        forall i | 0 < i < |cards|
          ensures Linked(cards[i - 1], cards[i])
        {
          assert cards[i - 1] in multiset(cards) && cards[i] in multiset(cards);
        }
      }
    }
  }

  lemma ChainFits(cards: seq<Card>, size: nat)
    requires cards != [] && Sorted(cards) && Chain(cards)
    requires cards[|cards| - 1].point - cards[0].point < size
    ensures Fits(multiset(cards), size)
  {
    forall i, j | 0 <= i < j < |cards|
      ensures cards[i].color == cards[j].color && cards[i].point < cards[j].point
    {
      ChainRises(cards, i, j);
    }
    DistinctOnce(cards);
    forall c | c in multiset(cards)
      ensures cards[0].point <= c.point < cards[0].point + size
    {
      var i :| 0 <= i < |cards| && cards[i] == c;
    }
    assert InWindow(multiset(cards), cards[0].point, size);
    forall c, d | c in multiset(cards) && d in multiset(cards)
      ensures c.color == d.color && (c.point == d.point ==> c == d)
    {
      var i :| 0 <= i < |cards| && cards[i] == c;
      var j :| 0 <= j < |cards| && cards[j] == d;
    }
  }

  /** With the ace low the same neighbours are linked. */
  lemma LoweredChain(cards: seq<Card>, size: nat)
    requires Fits(multiset(Lowered(cards)), size)
    ensures Chain(cards)
  {
    var low := Lowered(cards);
    DistinctOnce(low);
    forall i | 0 < i < |cards|
      ensures Linked(cards[i - 1], cards[i])
    {
      assert low[i - 1] in multiset(low) && low[i] in multiset(low);
    }
  }

  lemma LoweredWithoutAce(cards: seq<Card>)
    requires forall c :: c in cards ==> c.point != ACE
    ensures Lowered(cards) == cards
  {
  }

  lemma {:induction false} NaturalsAre(cards: seq<Card>, jokerPoint: int)
    ensures |Naturals(cards, jokerPoint)| <= |cards|
    ensures forall c :: c in Naturals(cards, jokerPoint) <==> c in cards && !Wild(c, jokerPoint)
  {
    if cards != [] {
      var last := |cards| - 1;
      NaturalsAre(cards[..last], jokerPoint);
      assert cards == cards[..last] + [cards[last]];
    }
  }

  lemma {:induction false} NaturalsSorted(cards: seq<Card>, jokerPoint: int)
    requires Sorted(cards)
    ensures Sorted(Naturals(cards, jokerPoint))
  {
    if cards != [] {
      var init := cards[..|cards| - 1];
      NaturalsSorted(init, jokerPoint);
      NaturalsAre(init, jokerPoint);
      var r := Naturals(init, jokerPoint);
      if r != [] {
        assert r[|r| - 1] in init;
        SortedAppend(r, cards[|cards| - 1]);
      }
    }
  }

  lemma ChainOfNone()
    ensures Chain([]) && Gaps([]) == 0
  {
  }

  lemma ChainAppend(cards: seq<Card>, c: Card)
    ensures Chain(cards + [c]) <==> Chain(cards) && (cards == [] || Linked(cards[|cards| - 1], c))
    ensures Gaps(cards + [c]) == if cards == [] then 0 else Gaps(cards) + c.point - cards[|cards| - 1].point - 1
  {
    var r := cards + [c];
    assert r[..|cards|] == cards;
    if Chain(r) {
      forall i | 0 < i < |cards|
        ensures Linked(cards[i - 1], cards[i])
      {
        assert Linked(r[i - 1], r[i]);
      }
      if cards != [] { assert Linked(r[|cards| - 1], r[|cards|]); }
    }
  }

  lemma ChainPrefix(part: seq<Card>, whole: seq<Card>)
    requires part <= whole && Chain(whole)
    ensures Chain(part)
  {
    forall i | 0 < i < |part|
      ensures Linked(part[i - 1], part[i])
    {
      assert Linked(whole[i - 1], whole[i]);
    }
  }

  /** is_cards_straight: on sorted cards it accepts exactly the straights. */
  method IsCardsStraight(cards: seq<Card>, jokerPoint: int) returns (ok: bool)
    ensures Sorted(cards) ==> (ok <==> IsStraight(cards, jokerPoint))
  {
    hide Naturals, IsStraight, Lowered, SortCards, Chain, Gaps, Sorted;
    if |cards| < 3 {
      TooFewForStraight(cards, jokerPoint);
      return false;
    }
    if Sorted(cards) {
      StraightCases(cards, jokerPoint);
      NoAceToLower(cards, jokerPoint);
    }
    var linked, temp, jokerCount, needJokerCount := FirstPass(cards, jokerPoint);
    if !linked { return false; }
    if needJokerCount <= jokerCount { return true; }
    ChainOfNone();
    if jokerPoint == ACE || temp[|temp| - 1].point != ACE { return false; }
    temp := SortCards(Lowered(temp));
    linked, needJokerCount := SecondPass(temp);
    return linked && needJokerCount <= jokerCount;
  }

  lemma TooFewForStraight(cards: seq<Card>, jokerPoint: int)
    requires |cards| < 3
    ensures !IsStraight(cards, jokerPoint)
  {
  }

  /** The first pass: wild cards are counted, natural ones collected and compared. */
  method FirstPass(cards: seq<Card>, jokerPoint: int)
    returns (linked: bool, temp: seq<Card>, jokerCount: int, needJokerCount: int)
    ensures linked <==> Chain(Naturals(cards, jokerPoint))
    ensures linked ==>
              && temp == Naturals(cards, jokerPoint) && jokerCount == |cards| - |temp|
              && needJokerCount == Gaps(temp)
  {
    hide Naturals, Chain, Gaps, Linked;
    ChainOfNone();
    NoNaturals(jokerPoint);
    var i := 0;
    linked, temp, jokerCount, needJokerCount := true, [], 0, 0;
    assert cards[..0] == [];
    while i < |cards|
      invariant 0 <= i <= |cards| && temp == Naturals(cards[..i], jokerPoint) && jokerCount == i - |temp|
      invariant linked && Chain(temp) && needJokerCount == Gaps(temp)
    {
      NaturalsSplit(cards, jokerPoint, i);
      NaturalsPrefix(cards, jokerPoint, i + 1);
      if Wild(cards[i], jokerPoint) {
        jokerCount := jokerCount + 1;
      } else {
        ChainAppend(temp, cards[i]);
        if temp != [] {
          var last := temp[|temp| - 1];
          LinkedIs(last, cards[i]);
          if last.color != cards[i].color || cards[i].point == last.point {
            if Chain(Naturals(cards, jokerPoint)) { ChainPrefix(temp + [cards[i]], Naturals(cards, jokerPoint)); }
            linked := false;
            return;
          }
          needJokerCount := needJokerCount + (cards[i].point - last.point - 1);
        }
        temp := temp + [cards[i]];
      }
      i := i + 1;
    }
    assert cards[..i] == cards;
  }

  lemma LinkedIs(a: Card, b: Card)
    ensures Linked(a, b) <==> a.color == b.color && a.point != b.point
  {
  }

  /** The second pass, over the natural cards with the ace low. */
  method SecondPass(cards: seq<Card>) returns (ok: bool, need: int)
    ensures ok <==> Chain(cards)
    ensures ok ==> need == Gaps(cards)
  {
    need := 0;
    var i := 1;
    while i < |cards|
      invariant 1 <= i && (cards != [] ==> i <= |cards|)
      invariant forall k :: 0 < k < i && k < |cards| ==> Linked(cards[k - 1], cards[k])
      invariant need == Gaps(if i <= |cards| then cards[..i] else cards)
    {
      if cards[i - 1].color != cards[i].color || cards[i].point == cards[i - 1].point { return false, need; }
      assert cards[..i + 1][..i] == cards[..i];
      need := need + (cards[i].point - cards[i - 1].point - 1);
      i := i + 1;
    }
    assert i <= |cards| ==> cards[..i] == cards;
    return true, need;
  }

  lemma {:induction false} NaturalsPrefix(cards: seq<Card>, jokerPoint: int, n: nat)
    requires n <= |cards|
    ensures Naturals(cards[..n], jokerPoint) <= Naturals(cards, jokerPoint)
    decreases |cards| - n
  {
    if n < |cards| {
      NaturalsPrefix(cards, jokerPoint, n + 1);
      NaturalsSplit(cards, jokerPoint, n);
    } else {
      assert cards[..n] == cards;
    }
  }

  /** When sorted cards are a straight, in the terms the code decides it. */
  lemma StraightCases(cards: seq<Card>, jokerPoint: int)
    requires |cards| >= 3 && Sorted(cards)
    ensures var naturals := Naturals(cards, jokerPoint);
            var jokers := |cards| - |naturals|;
            var low := SortCards(Lowered(naturals));
            && (IsStraight(cards, jokerPoint) ==> Chain(naturals))
            && (IsStraight(cards, jokerPoint) <==>
                  || (Chain(naturals) && Gaps(naturals) <= jokers)
                  || (Chain(low) && Gaps(low) <= jokers))
  {
    hide Fits, Chain, Gaps, Naturals, Lowered, SortCards, Sorted;
    var naturals := Naturals(cards, jokerPoint);
    NaturalsAre(cards, jokerPoint);
    NaturalsSorted(cards, jokerPoint);
    FitsIffChain(naturals, |cards|);
    SortCardsSorted(Lowered(naturals));
    FitsIffChain(SortCards(Lowered(naturals)), |cards|);
    if Fits(multiset(Lowered(naturals)), |cards|) { LoweredChain(naturals, |cards|); }
  }

  /** Without an ace to lower both readings are one. */
  lemma NoAceToLower(cards: seq<Card>, jokerPoint: int)
    requires Sorted(cards)
    ensures var naturals := Naturals(cards, jokerPoint);
            naturals == [] || jokerPoint == ACE || naturals[|naturals| - 1].point != ACE ==>
              SortCards(Lowered(naturals)) == naturals
  {
    hide Naturals, SortCards, Lowered, Sorted;
    var naturals := Naturals(cards, jokerPoint);
    NaturalsAre(cards, jokerPoint);
    NaturalsSorted(cards, jokerPoint);
    SortedStays(naturals);
    if naturals == [] || jokerPoint == ACE || naturals[|naturals| - 1].point != ACE {
      forall c | c in naturals
        ensures c.point != ACE
      {
        LastIsGreatest(naturals, c);
        assert naturals[|naturals| - 1] in naturals;
      }
      LoweredWithoutAce(naturals);
    }
  }

  lemma LastIsGreatest(cards: seq<Card>, c: Card)
    requires Sorted(cards) && c in cards
    ensures c.point <= cards[|cards| - 1].point
  {
    var i :| 0 <= i < |cards| && cards[i] == c;
    assert i == |cards| - 1 || Upto(cards[i], cards[|cards| - 1]);
  }

  lemma {:induction false} SortedStays(cards: seq<Card>)
    requires Sorted(cards)
    ensures SortCards(cards) == cards
  {
    if cards != [] {
      SortedStays(cards[..|cards| - 1]);
    }
  }

  /** Where all points run from one to fourteen and there are no more cards than points, the straight's
      places lie among those points: each wild card stands for a point there is. */
  lemma StraightWithinPoints(cards: multiset<Card>, size: nat)
    requires Fits(cards, size) && size <= 14 && forall c :: c in cards ==> 1 <= c.point <= 14
    ensures exists lo: int :: 1 <= lo && lo + size <= 15 && InWindow(cards, lo, size)
  {
    var lo: int :| InWindow(cards, lo, size);
    var first := if lo < 1 then 1 else if lo + size > 15 then 15 - size else lo;
    assert InWindow(cards, first, size);
  }

  // ----- declaring

  const GROUP_INVALID := 0
  const GROUP_STRAIGHT := 1
  const GROUP_THREE_KIND := 2

  datatype CardGroup = CardGroup(kind: int, cards: seq<Card>)

  /** get_score. */
  function Score(c: Card, jokerPoint: int): nat {
    if 2 <= c.point <= ACE && c.point != jokerPoint then (if c.point > 10 then 10 else c.point) else 0
  }

  /** caculate_card_score. */
  function TotalScore(cards: seq<Card>, jokerPoint: int): nat {
    if cards == [] then 0 else TotalScore(cards[..|cards| - 1], jokerPoint) + Score(cards[|cards| - 1], jokerPoint)
  }

  method CalculateCardScore(cards: seq<Card>, jokerPoint: int) returns (score: nat)
    ensures score == TotalScore(cards, jokerPoint)
  {
    score := 0;
    for i := 0 to |cards|
      invariant score == TotalScore(cards[..i], jokerPoint)
    {
      assert cards[..i + 1][..i] == cards[..i];
      score := score + Score(cards[i], jokerPoint);
    }
    assert cards[..|cards|] == cards;
  }

  ghost predicate StraightGroup(g: CardGroup, jokerPoint: int) {
    g.kind == GROUP_STRAIGHT && IsStraight(SortCards(g.cards), jokerPoint)
  }

  ghost predicate PureGroup(g: CardGroup) { g.kind == GROUP_STRAIGHT && PassesAsPure(SortCards(g.cards)) }

  ghost predicate SetGroup(g: CardGroup, jokerPoint: int) {
    g.kind == GROUP_THREE_KIND && PassesAsSet(SortCards(g.cards), jokerPoint)
  }

  ghost function Straights(groups: seq<CardGroup>): nat {
    if groups == [] then 0
    else Straights(groups[..|groups| - 1]) + (if groups[|groups| - 1].kind == GROUP_STRAIGHT then 1 else 0)
  }

  ghost function Pures(groups: seq<CardGroup>): nat {
    if groups == [] then 0 else Pures(groups[..|groups| - 1]) + (if PureGroup(groups[|groups| - 1]) then 1 else 0)
  }

  ghost function LooseScore(groups: seq<CardGroup>, jokerPoint: int): nat {
    if groups == [] then 0
    else
      var g := groups[|groups| - 1];
      LooseScore(groups[..|groups| - 1], jokerPoint)
      + (if g.kind == GROUP_INVALID then TotalScore(SortCards(g.cards), jokerPoint) else 0)
  }

  /** All cards are in groups that pass, two or more of them straights, one or more pure. */
  ghost predicate Declares(groups: seq<CardGroup>, jokerPoint: int) {
    && Pures(groups) >= 1 && Straights(groups) >= 2
    && forall g :: g in groups ==>
         && g.kind != GROUP_INVALID
         && (g.kind == GROUP_STRAIGHT ==> StraightGroup(g, jokerPoint))
         && (g.kind == GROUP_THREE_KIND ==> SetGroup(g, jokerPoint))
  }

  /** The groups a loser may show: straights with a pure one among them, sets when there are two straights,
      and loose cards. */
  ghost predicate Shows(groups: seq<CardGroup>, jokerPoint: int) {
    forall g :: g in groups ==>
      || g.kind == GROUP_INVALID
      || (StraightGroup(g, jokerPoint) && Pures(groups) >= 1)
      || (SetGroup(g, jokerPoint) && Pures(groups) >= 1 && Straights(groups) >= 2)
  }

  /** is_groups_declare. */
  method IsGroupsDeclare(groups: seq<CardGroup>, jokerPoint: int) returns (ok: bool)
    ensures ok <==> Declares(groups, jokerPoint)
  {
    hide SortCards, IsStraight, PassesAsPure, PassesAsSet;
    var pureCount, straightCount := 0, 0;
    for i := 0 to |groups|
      invariant pureCount == Pures(groups[..i]) && straightCount == Straights(groups[..i])
      invariant forall k :: 0 <= k < i ==>
        && groups[k].kind != GROUP_INVALID
        && (groups[k].kind == GROUP_STRAIGHT ==> StraightGroup(groups[k], jokerPoint))
        && (groups[k].kind == GROUP_THREE_KIND ==> SetGroup(groups[k], jokerPoint))
    {
      var g := groups[i];
      assert g in groups && groups[..i + 1][..i] == groups[..i];
      if g.kind == GROUP_INVALID { return false; }
      var cards := SortCards(g.cards);
      SortCardsSorted(g.cards);
      if g.kind == GROUP_STRAIGHT {
        var straight := IsCardsStraight(cards, jokerPoint);
        if !straight { return false; }
        straightCount := straightCount + 1;
        var pure := IsCardsPureStraight(cards);
        if pure { pureCount := pureCount + 1; }
      }
      if g.kind == GROUP_THREE_KIND {
        var kind := IsCardsThreeOfKind(cards, jokerPoint);
        if !kind { return false; }
      }
    }
    assert groups[..|groups|] == groups;
    return !(pureCount < 1 || straightCount < 2);
  }

  /** The first loop of check_lose_declare. */
  method CountStraights(groups: seq<CardGroup>, jokerPoint: int) returns (ok: bool, pureCount: nat, straightCount: nat)
    ensures ok <==> forall g :: g in groups && g.kind == GROUP_STRAIGHT ==> StraightGroup(g, jokerPoint)
    ensures ok ==> pureCount == Pures(groups) && straightCount == Straights(groups)
  {
    hide SortCards, IsStraight, PassesAsPure;
    pureCount, straightCount := 0, 0;
    for i := 0 to |groups|
      invariant pureCount == Pures(groups[..i]) && straightCount == Straights(groups[..i])
      invariant forall k :: 0 <= k < i && groups[k].kind == GROUP_STRAIGHT ==> StraightGroup(groups[k], jokerPoint)
    {
      var g := groups[i];
      assert g in groups && groups[..i + 1][..i] == groups[..i];
      var cards := SortCards(g.cards);
      SortCardsSorted(g.cards);
      if g.kind == GROUP_STRAIGHT {
        var straight := IsCardsStraight(cards, jokerPoint);
        if !straight { return false, pureCount, straightCount; }
        straightCount := straightCount + 1;
        var pure := IsCardsPureStraight(cards);
        if pure { pureCount := pureCount + 1; }
      }
    }
    assert groups[..|groups|] == groups;
    return true, pureCount, straightCount;
  }

  /** check_lose_declare. */
  method CheckLoseDeclare(groups: seq<CardGroup>, jokerPoint: int) returns (ok: bool, score: nat)
    ensures ok <==> Shows(groups, jokerPoint)
    ensures ok ==> score == LooseScore(groups, jokerPoint)
  {
    hide SortCards, IsStraight, PassesAsSet, Pures, Straights, TotalScore;
    score := 0;
    var straight, pureCount, straightCount := CountStraights(groups, jokerPoint);
    if !straight { return false, 0; }
    for i := 0 to |groups|
      invariant score == LooseScore(groups[..i], jokerPoint)
      invariant forall k :: 0 <= k < i ==>
        || groups[k].kind == GROUP_INVALID
        || (StraightGroup(groups[k], jokerPoint) && Pures(groups) >= 1)
        || (SetGroup(groups[k], jokerPoint) && Pures(groups) >= 1 && Straights(groups) >= 2)
    {
      var g := groups[i];
      assert g in groups && groups[..i + 1][..i] == groups[..i];
      var cards := SortCards(g.cards);
      if g.kind == GROUP_INVALID {
        var more := CalculateCardScore(cards, jokerPoint);
        score := score + more;
      } else if g.kind == GROUP_STRAIGHT {
        if pureCount < 1 { return false, score; }
      } else if g.kind == GROUP_THREE_KIND {
        if pureCount < 1 || straightCount < 2 { return false, score; }
        var kind := IsCardsThreeOfKind(cards, jokerPoint);
        if !kind { return false, score; }
      } else {
        return false, score;
      }
    }
    assert groups[..|groups|] == groups;
    return true, score;
  }

  lemma {:induction false} NoLooseScore(groups: seq<CardGroup>, jokerPoint: int)
    requires forall g :: g in groups ==> g.kind != GROUP_INVALID
    ensures LooseScore(groups, jokerPoint) == 0
  {
    if groups != [] {
      NoLooseScore(groups[..|groups| - 1], jokerPoint);
    }
  }

  /** Among groups of the known kinds a declaration is what may be shown with nothing loose and two
      straights, one of them pure; it costs nothing. */
  lemma DeclaresIffShows(groups: seq<CardGroup>, jokerPoint: int)
    requires forall g :: g in groups ==> GROUP_INVALID <= g.kind <= GROUP_THREE_KIND
    ensures Declares(groups, jokerPoint) <==>
              && Shows(groups, jokerPoint) && Pures(groups) >= 1 && Straights(groups) >= 2
              && (forall g :: g in groups ==> g.kind != GROUP_INVALID)
    ensures Declares(groups, jokerPoint) ==> LooseScore(groups, jokerPoint) == 0
  {
    hide LooseScore, Pures, Straights;
    if Declares(groups, jokerPoint) { NoLooseScore(groups, jokerPoint); }
  }

  // ----- the rules on single cards and small groups

  /** Pip cards score their pips, face cards and aces ten, wild cards nothing. */
  lemma Scores(c: Card, jokerPoint: int)
    ensures c.point == jokerPoint || c.point >= 15 ==> Score(c, jokerPoint) == 0
    ensures 2 <= c.point <= 10 && c.point != jokerPoint ==> Score(c, jokerPoint) == c.point
    ensures 11 <= c.point <= 14 && c.point != jokerPoint ==> Score(c, jokerPoint) == 10
  {
  }

  /** The score of a hand is the sum over its parts. */
  lemma {:induction false} ScoreOfParts(a: seq<Card>, b: seq<Card>, jokerPoint: int)
    ensures TotalScore(a + b, jokerPoint) == TotalScore(a, jokerPoint) + TotalScore(b, jokerPoint)
  {
    if b == [] {
      assert a + b == a;
    } else {
      ScoreOfParts(a, b[..|b| - 1], jokerPoint);
      assert (a + b)[..|a + b| - 1] == a + b[..|b| - 1];
    }
  }

  lemma NaturalsOfThree(cards: seq<Card>, jokerPoint: int)
    requires |cards| == 3
    ensures |Naturals(cards, jokerPoint)|
         == (if Wild(cards[0], jokerPoint) then 0 else 1) + (if Wild(cards[1], jokerPoint) then 0 else 1)
            + (if Wild(cards[2], jokerPoint) then 0 else 1)
  {
    hide Naturals, Wild;
    assert cards[..0] == [] && cards[..3] == cards;
    NoNaturals(jokerPoint);
    NaturalsSplit(cards, jokerPoint, 0);
    NaturalsSplit(cards, jokerPoint, 1);
    NaturalsSplit(cards, jokerPoint, 2);
  }

  /** Which of three cards, none wild, are a set: those of one point in three colours. */
  lemma SetOfThree(a: Card, b: Card, c: Card, jokerPoint: int)
    requires a.point != jokerPoint && b.point != jokerPoint && c.point != jokerPoint
    requires a.point < 15 && b.point < 15 && c.point < 15
    ensures IsSet([a, b, c], jokerPoint) <==>
              && a.point == b.point == c.point && a.color != b.color && b.color != c.color && a.color != c.color
  {
    var cards := [a, b, c];
    NaturalsOfThree(cards, jokerPoint);
    if a.point == b.point == c.point && a.color != b.color && b.color != c.color && a.color != c.color {
      assert SameSet(a, b) && SameSet(b, c) && SameSet(a, c);
    }
    if IsSet(cards, jokerPoint) {
      assert SameSet(cards[0], cards[1]) && SameSet(cards[1], cards[2]) && SameSet(cards[0], cards[2]);
    }
  }

  /** Which of two cards and a joker: the same of the two. */
  lemma SetOfTwoAndJoker(a: Card, b: Card, joker: Card, jokerPoint: int)
    requires a.point != jokerPoint && b.point != jokerPoint && a.point < 15 && b.point < 15 && joker.point >= 15
    ensures IsSet([a, b, joker], jokerPoint) <==> a.point == b.point && a.color != b.color
  {
    var cards := [a, b, joker];
    NaturalsOfThree(cards, jokerPoint);
    if a.point == b.point && a.color != b.color {
      assert SameSet(a, b);
    }
    if IsSet(cards, jokerPoint) {
      assert SameSet(cards[0], cards[1]);
    }
  }
}
