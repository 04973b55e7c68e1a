/** What the search of GroupSearch finds: groups that can be made of the hand, and which of them the rules
    of GroupRules accept. */
module GroupFacts {
  import opened CardDealer
  import opened GroupRules
  import opened Choices
  import opened GroupSearch

  // ----- lists and choices

  lemma {:induction false} InFlatMap<T, U>(list: seq<T>, f: T -> seq<U>, x: U) returns (k: nat)
    requires x in FlatMap(list, f)
    ensures k < |list| && x in f(list[k])
  {
    var last := |list| - 1;
    if x in f(list[last]) {
      k := last;
    } else {
      k := InFlatMap(list[..last], f, x);
    }
  }

  lemma {:induction false} SelectPart(arr: seq<Card>, v: Mask)
    requires |arr| == |v|
    ensures multiset(Select(arr, v)) <= multiset(arr)
  {
    if v != [] {
      var last := |v| - 1;
      SelectPart(arr[..last], v[..last]);
      assert arr == arr[..last] + [arr[last]];
    }
  }

  lemma ChoiceMask<T>(arr: seq<T>, n: nat, c: seq<T>) returns (v: Mask)
    requires c in Choose(arr, n)
    ensures |v| == |arr| && c == Select(arr, v) && |c| == n
  {
    hide Select, Masks;
    MasksSize(|arr|, n);
    var k :| 0 <= k < |Choose(arr, n)| && Choose(arr, n)[k] == c;
    v := Masks(|arr|, n)[k];
  }

  lemma {:induction false} CombinesPart(cards: seq<Card>, hi: nat, c: seq<Card>)
    requires c in Combines(cards, hi)
    ensures 1 <= |c| <= hi && multiset(c) <= multiset(cards)
  {
    hide Choose;
    if c in Choose(cards, hi) {
      var v := ChoiceMask(cards, hi, c);
      SelectPart(cards, v);
    } else {
      CombinesPart(cards, hi - 1, c);
    }
  }

  // ----- counting cards

  lemma {:induction false} NaturalsCount(cards: seq<Card>, jokerPoint: int, c: Card)
    ensures multiset(Naturals(cards, jokerPoint))[c] == if Wild(c, jokerPoint) then 0 else multiset(cards)[c]
  {
    if cards != [] {
      var last := |cards| - 1;
      NaturalsCount(cards[..last], jokerPoint, c);
      assert cards == cards[..last] + [cards[last]];
    }
  }

  lemma {:induction false} WildCount(cards: seq<Card>, jokerPoint: int, c: Card)
    ensures multiset(WildCards(cards, jokerPoint))[c] == if Wild(c, jokerPoint) then multiset(cards)[c] else 0
  {
    if cards != [] {
      var last := |cards| - 1;
      WildCount(cards[..last], jokerPoint, c);
      assert cards == cards[..last] + [cards[last]];
    }
  }

  lemma {:induction false} FlushCount(cards: seq<Card>, color: nat, c: Card)
    ensures multiset(Flush(cards, color))[c] == if c.color == color then multiset(cards)[c] else 0
  {
    if cards != [] {
      var last := |cards| - 1;
      FlushCount(cards[..last], color, c);
      assert cards == cards[..last] + [cards[last]];
    }
  }

  /** The first and the repeated cards are the natural ones. */
  lemma {:induction false} FirstsAndRepeats(cards: seq<Card>, jokerPoint: int)
    ensures multiset(Firsts(cards, jokerPoint)) + multiset(Repeats(cards, jokerPoint))
         == multiset(Naturals(cards, jokerPoint))
  {
    if cards != [] {
      FirstsAndRepeats(cards[..|cards| - 1], jokerPoint);
    }
  }

  lemma ErasedCount(cards: seq<Card>, c: Card)
    ensures multiset(Erased(cards, c)) == multiset(cards) - multiset{c}
  {
    var i := Find(cards, c);
    if i < |cards| {
      assert cards == cards[..i] + [c] + cards[i + 1..];
    } else {
      assert c !in multiset(cards);
    }
  }

  /** What is left is the difference. */
  lemma {:induction false} RemovedCount(cards: seq<Card>, group: seq<Card>)
    ensures multiset(Removed(cards, group)) == multiset(cards) - multiset(group)
  {
    hide Erased;
    if group != [] {
      var last := |group| - 1;
      RemovedCount(cards, group[..last]);
      ErasedCount(Removed(cards, group[..last]), group[last]);
      assert group == group[..last] + [group[last]];
      MinusMinus(multiset(cards), multiset(group[..last]), multiset{group[last]});
    }
  }

  lemma MinusMinus(m: multiset<Card>, a: multiset<Card>, b: multiset<Card>)
    ensures (m - a) - b == m - (a + b)
  {
  }

  // ----- rising cards of one colour

  /** Natural cards of one colour, each of a higher point than the one before. */
  ghost predicate Rising(cards: seq<Card>, jokerPoint: int) {
    && (forall c :: c in cards ==> !Wild(c, jokerPoint) && 2 <= c.point)
    && (forall i, j :: 0 <= i < j < |cards| ==> cards[i].color == cards[j].color && cards[i].point < cards[j].point)
  }

  lemma RisingAppend(cards: seq<Card>, c: Card, jokerPoint: int)
    requires Rising(cards, jokerPoint) && !Wild(c, jokerPoint) && 2 <= c.point
    requires cards != [] ==> cards[|cards| - 1].color == c.color && cards[|cards| - 1].point < c.point
    ensures Rising(cards + [c], jokerPoint)
  {
  }

  lemma RisingInit(h: seq<Card>, c: Card, jokerPoint: int)
    requires Rising(h + [c], jokerPoint)
    ensures Rising(h, jokerPoint) && !Wild(c, jokerPoint) && 2 <= c.point
    ensures forall d :: d in h ==> d.color == c.color && d.point < c.point
  {
    var all := h + [c];
    assert forall i :: 0 <= i < |h| ==> all[i] == h[i] && all[i] in all;
    assert all[|h|] == c && c in all;
  }

  lemma {:induction false} SelectRising(arr: seq<Card>, v: Mask, jokerPoint: int)
    requires |arr| == |v| && Rising(arr, jokerPoint)
    ensures Rising(Select(arr, v), jokerPoint)
    ensures forall c :: c in Select(arr, v) ==> c in arr
  {
    hide Rising;
    if v != [] {
      var last := |v| - 1;
      var init, c := arr[..last], arr[last];
      assert arr == init + [c];
      RisingInit(init, c, jokerPoint);
      SelectRising(init, v[..last], jokerPoint);
      var r := Select(init, v[..last]);
      if r != [] { assert r[|r| - 1] in r; }
      assert r + [] == r;
      if v[last] { RisingAppend(r, c, jokerPoint); }
    } else {
      RepeatsOfNone(jokerPoint);
    }
  }

  /** Sorted cards of one colour. */
  ghost predicate OneColor(cards: seq<Card>, color: nat) {
    Sorted(cards) && forall c :: c in cards ==> c.color == color && 2 <= c.point
  }

  lemma {:induction false} FirstsRising(cards: seq<Card>, color: nat, jokerPoint: int)
    requires OneColor(cards, color)
    ensures Rising(Firsts(cards, jokerPoint), jokerPoint)
    ensures forall c :: c in Firsts(cards, jokerPoint) ==> c in cards
  {
    if cards != [] {
      var last := |cards| - 1;
      FirstsRising(cards[..last], color, jokerPoint);
      var r := Firsts(cards[..last], jokerPoint);
      assert cards[last] in cards;
      if Firsts(cards, jokerPoint) != r {
        if r != [] {
          assert r[|r| - 1] in cards[..last];
          var i :| 0 <= i < last && cards[i] == r[|r| - 1];
          assert Upto(cards[i], cards[last]);
        }
        RisingAppend(r, cards[last], jokerPoint);
      }
    }
  }

  lemma RepeatsNext(init: seq<Card>, c: Card, jokerPoint: int)
    ensures var f := Firsts(init, jokerPoint);
            var again := !Wild(c, jokerPoint) && f != [] && f[|f| - 1].point == c.point;
            Repeats(init + [c], jokerPoint) == Repeats(init, jokerPoint) + (if again then [c] else [])
  {
    assert (init + [c])[..|init|] == init;
  }

  lemma OneColorInit(init: seq<Card>, c: Card, color: nat)
    requires OneColor(init + [c], color) && forall d :: multiset(init + [c])[d] <= 2
    ensures OneColor(init, color) && (forall d :: multiset(init)[d] <= 2) && c.color == color && 2 <= c.point
    ensures forall d :: d in init ==> Upto(d, c) && d.color == color
  {
    var all := init + [c];
    assert all[|init|] == c && forall i :: 0 <= i < |init| ==> all[i] == init[i] && all[i] in all;
    assert c in all;
    forall d
      ensures multiset(init)[d] <= 2
    {
      assert multiset(all)[d] <= 2;
    }
  }

  /** When no card occurs three times the repeated ones rise too. */
  lemma {:induction false} RepeatsRising(cards: seq<Card>, color: nat, jokerPoint: int)
    requires OneColor(cards, color) && forall c :: multiset(cards)[c] <= 2
    ensures Rising(Repeats(cards, jokerPoint), jokerPoint)
    ensures forall c :: c in Repeats(cards, jokerPoint) ==> c in cards
  {
    if cards != [] {
      hide Repeats, Firsts, Rising, OneColor;
      var init, c := cards[..|cards| - 1], cards[|cards| - 1];
      assert cards == init + [c];
      OneColorInit(init, c, color);
      RepeatsRising(init, color, jokerPoint);
      FirstsRising(init, color, jokerPoint);
      RepeatsNext(init, c, jokerPoint);
      var f, r := Firsts(init, jokerPoint), Repeats(init, jokerPoint);
      if Repeats(cards, jokerPoint) != r {
        assert f[|f| - 1] in f;
        if r != [] {
          assert r[|r| - 1] in r;
          if r[|r| - 1] == c { ThriceCounted(init, jokerPoint, c); }
        }
        RisingAppend(r, c, jokerPoint);
      }
    } else {
      RepeatsOfNone(jokerPoint);
    }
  }

  lemma RepeatsOfNone(jokerPoint: int)
    ensures Repeats([], jokerPoint) == [] && Rising([], jokerPoint)
  {
  }

  lemma ThriceCounted(init: seq<Card>, jokerPoint: int, c: Card)
    requires c in Firsts(init, jokerPoint) && c in Repeats(init, jokerPoint)
    ensures multiset(init + [c])[c] >= 3
  {
    FirstsAndRepeats(init, jokerPoint);
    NaturalsCount(init, jokerPoint, c);
  }

  // ----- straights

  lemma {:induction false} LoweredCount(cards: seq<Card>, d: Card)
    ensures multiset(Lowered(cards))[d] ==
            (if d.point == ACE then 0 else multiset(cards)[d])
            + (if d.point == 1 then multiset(cards)[Card(d.color, ACE)] else 0)
  {
    if cards != [] {
      var last := |cards| - 1;
      LoweredCount(cards[..last], d);
      assert cards == cards[..last] + [cards[last]];
      assert Lowered(cards) == Lowered(cards[..last]) + [Low(cards[last])];
    }
  }

  lemma LoweredSame(a: seq<Card>, b: seq<Card>)
    requires multiset(a) == multiset(b)
    ensures multiset(Lowered(a)) == multiset(Lowered(b))
  {
    forall d
      ensures multiset(Lowered(a))[d] == multiset(Lowered(b))[d]
    {
      LoweredCount(a, d);
      LoweredCount(b, d);
    }
  }

  lemma NaturalPart(h: seq<Card>, w: seq<Card>, jokerPoint: int, c: Card)
    requires (forall c :: c in h ==> !Wild(c, jokerPoint)) && (forall c :: c in w ==> Wild(c, jokerPoint))
    ensures multiset(Naturals(SortCards(h + w), jokerPoint))[c] == multiset(h)[c]
  {
    hide Naturals, SortCards, Wild;
    NaturalsCount(SortCards(h + w), jokerPoint, c);
    assert multiset(h + w)[c] == multiset(h)[c] + multiset(w)[c];
    assert (c in h <==> multiset(h)[c] > 0) && (c in w <==> multiset(w)[c] > 0);
  }

  lemma NaturalParts(h: seq<Card>, w: seq<Card>, jokerPoint: int)
    requires (forall c :: c in h ==> !Wild(c, jokerPoint)) && (forall c :: c in w ==> Wild(c, jokerPoint))
    ensures multiset(Naturals(SortCards(h + w), jokerPoint)) == multiset(h)
  {
    hide Naturals, SortCards, Wild;
    forall c
      ensures multiset(Naturals(SortCards(h + w), jokerPoint))[c] == multiset(h)[c]
    {
      NaturalPart(h, w, jokerPoint, c);
    }
  }

  /** Natural cards h and wild cards w, sorted together, are a straight when h fits in their number. */
  lemma StraightOf(h: seq<Card>, w: seq<Card>, jokerPoint: int)
    requires |h| + |w| >= 3
    requires (forall c :: c in h ==> !Wild(c, jokerPoint)) && (forall c :: c in w ==> Wild(c, jokerPoint))
    requires Fits(multiset(h), |h| + |w|) || Fits(multiset(Lowered(h)), |h| + |w|)
    ensures IsStraight(SortCards(h + w), jokerPoint)
  {
    hide Fits, Lowered, SortCards, Naturals, Wild;
    NaturalParts(h, w, jokerPoint);
    LoweredSame(Naturals(SortCards(h + w), jokerPoint), h);
  }

  lemma RisingChain(h: seq<Card>, jokerPoint: int)
    requires Rising(h, jokerPoint)
    ensures Sorted(h) && Chain(h)
  {
  }

  lemma RisingFits(h: seq<Card>, size: nat, jokerPoint: int)
    requires Rising(h, jokerPoint) && h != [] && h[|h| - 1].point - h[0].point < size
    ensures Fits(multiset(h), size)
  {
    RisingChain(h, jokerPoint);
    ChainFits(h, size);
  }

  lemma {:induction false} MissingHigh(h: seq<Card>, jokerPoint: int)
    requires Rising(h, jokerPoint) && h != []
    ensures Missing(h) == h[|h| - 1].point - h[0].point - (|h| - 1)
  {
    var last := |h| - 1;
    if last > 0 {
      MissingHigh(h[..last], jokerPoint);
      assert h[last] in h && h[last - 1].point < h[last].point < JOKER1;
    }
  }

  lemma MissingAppend(cards: seq<Card>, c: Card)
    requires cards != []
    ensures var last := cards[|cards| - 1];
            Missing(cards + [c])
            == Missing(cards) + (if last.point == ACE then c.point - 2 else c.point - last.point - 1)
  {
    assert (cards + [c])[..|cards|] == cards;
  }

  /** With the ace in front of the cards below it. */
  lemma {:induction false} MissingLow(ace: Card, h: seq<Card>)
    requires ace.point == ACE && h != [] && forall i :: 0 <= i < |h| ==> h[i].point < ACE
    ensures Missing([ace] + h) == h[|h| - 1].point - 1 - |h|
  {
    hide Missing;
    var init := h[..|h| - 1];
    MissingAppend([ace] + init, h[|h| - 1]);
    assert [ace] + h == [ace] + init + [h[|h| - 1]];
    if init == [] {
      MissingOfOne(ace);
      assert [ace] + init == [ace];
    } else {
      MissingLow(ace, init);
    }
  }

  lemma MissingOfOne(c: Card)
    ensures Missing([c]) == 0
  {
  }

  lemma BelowAce(h: seq<Card>, ace: Card, jokerPoint: int)
    requires Rising(h + [ace], jokerPoint) && ace.point == ACE
    ensures forall i :: 0 <= i < |h| ==> h[i].color == ace.color && 2 <= h[i].point < ACE
    ensures forall i, j :: 0 <= i < j < |h| ==> h[i].point < h[j].point
    ensures Sorted([Card(ace.color, 1)] + h) && Chain([Card(ace.color, 1)] + h)
  {
    var all := h + [ace];
    assert all[|h|] == ace;
    assert forall i :: 0 <= i < |h| ==> all[i] == h[i] && all[i] in all;
  }

  lemma LoweredFront(h: seq<Card>, ace: Card)
    requires ace.point == ACE && forall i :: 0 <= i < |h| ==> h[i].point < ACE
    ensures Lowered([ace] + h) == [Card(ace.color, 1)] + h
  {
  }

  /** The cards below an ace and the ace itself fit low. */
  lemma LowFits(h: seq<Card>, ace: Card, size: nat, jokerPoint: int)
    requires Rising(h + [ace], jokerPoint) && ace.point == ACE && h != [] && h[|h| - 1].point <= size
    ensures Fits(multiset(Lowered([ace] + h)), size)
  {
    hide Fits, Lowered;
    BelowAce(h, ace, jokerPoint);
    var low := [Card(ace.color, 1)] + h;
    LoweredFront(h, ace);
    ChainFits(low, size);
  }

  lemma {:induction false} InFilled(cards: seq<Card>, combines: seq<seq<Card>>, lo: int, hi: int, g: CardGroup)
    returns (w: seq<Card>)
    requires g in FilledUpto(cards, combines, lo, hi)
    ensures w in combines && lo <= |w| <= hi && g == CardGroup(GROUP_STRAIGHT, SortCards(cards + w))
    decreases hi - lo
  {
    hide SortCards;
    if g in FlatMap(combines, Filled(cards, hi)) {
      var k := InFlatMap(combines, Filled(cards, hi), g);
      FilledAt(cards, hi, combines[k]);
      w := combines[k];
    } else {
      w := InFilled(cards, combines, lo, hi - 1, g);
    }
  }

  /** The jokers a filled group takes: enough of those there are. */
  lemma InWithJokers(cards: seq<Card>, jokers: seq<Card>, g: CardGroup) returns (w: seq<Card>)
    requires g in WithJokers(cards, jokers)
    ensures multiset(w) <= multiset(jokers) && FillNeed(cards) <= |w|
    ensures g == CardGroup(GROUP_STRAIGHT, SortCards(cards + w))
  {
    hide SortCards, FillNeed, Choose;
    w := InFilled(cards, AllCombines(jokers), FillNeed(cards), |jokers|, g);
    CombinesPart(jokers, |jokers|, w);
  }

  ghost predicate AllWild(w: seq<Card>, jokerPoint: int) { forall c :: c in w ==> Wild(c, jokerPoint) }

  /** What every straight found is: made of the cards at hand, three or more, and a straight; in order when
      it passes as pure. */
  ghost predicate MadeStraight(g: CardGroup, m: multiset<Card>, jokerPoint: int) {
    && g.kind == GROUP_STRAIGHT && |g.cards| >= 3 && multiset(g.cards) <= m
    && IsStraight(SortCards(g.cards), jokerPoint)
    && (PassesAsPure(g.cards) ==> SortCards(g.cards) == g.cards)
  }

  lemma {:induction false} SortTwice(cards: seq<Card>)
    ensures SortCards(SortCards(cards)) == SortCards(cards)
  {
    SortCardsSorted(cards);
    SortedStays(SortCards(cards));
  }

  /** The natural cards of a choice with jokers. */
  lemma FilledIsStraight(h: seq<Card>, jokers: seq<Card>, jokerPoint: int, g: CardGroup)
    requires Rising(h, jokerPoint) && h != [] && AllWild(jokers, jokerPoint)
    requires g in WithJokers(h, jokers)
    ensures MadeStraight(g, multiset(h) + multiset(jokers), jokerPoint)
  {
    hide SortCards, Fits, Lowered, IsStraight, WithJokers, Rising, Missing;
    var w := InWithJokers(h, jokers, g);
    MissingHigh(h, jokerPoint);
    RisingFits(h, |h| + |w|, jokerPoint);
    WildPart(w, jokers, jokerPoint);
    RisingNatural(h, jokerPoint);
    StraightOf(h, w, jokerPoint);
    SortTwice(h + w);
    assert multiset(h + w) == multiset(h) + multiset(w);
  }

  lemma RisingNatural(h: seq<Card>, jokerPoint: int)
    requires Rising(h, jokerPoint)
    ensures forall c :: c in h ==> !Wild(c, jokerPoint)
  {
  }

  lemma WildPart(w: seq<Card>, jokers: seq<Card>, jokerPoint: int)
    requires multiset(w) <= multiset(jokers) && AllWild(jokers, jokerPoint)
    ensures AllWild(w, jokerPoint)
  {
    forall c | c in w
      ensures Wild(c, jokerPoint)
    {
      assert c in multiset(w) && c in multiset(jokers);
    }
  }

  /** The same with the ace counted low. */
  lemma FilledLowIsStraight(h: seq<Card>, ace: Card, jokers: seq<Card>, jokerPoint: int, g: CardGroup)
    requires Rising(h + [ace], jokerPoint) && h != [] && ace.point == ACE && AllWild(jokers, jokerPoint)
    requires g in WithJokers([ace] + h, jokers)
    ensures MadeStraight(g, multiset(h + [ace]) + multiset(jokers), jokerPoint)
  {
    hide SortCards, Fits, Lowered, IsStraight, WithJokers, Missing, Rising;
    var front := [ace] + h;
    var w := InWithJokers(front, jokers, g);
    RisingInit(h, ace, jokerPoint);
    BelowAce(h, ace, jokerPoint);
    MissingLow(ace, h);
    LowFits(h, ace, |front| + |w|, jokerPoint);
    WildPart(w, jokers, jokerPoint);
    RisingNatural(h + [ace], jokerPoint);
    assert multiset(front) == multiset(h + [ace]);
    NaturalAlike(front, h + [ace], jokerPoint);
    StraightOf(front, w, jokerPoint);
    SortTwice(front + w);
    assert multiset(front + w) == multiset(front) + multiset(w);
  }

  lemma NaturalAlike(a: seq<Card>, b: seq<Card>, jokerPoint: int)
    requires multiset(a) == multiset(b) && forall c :: c in b ==> !Wild(c, jokerPoint)
    ensures forall c :: c in a ==> !Wild(c, jokerPoint)
  {
    forall c | c in a
      ensures !Wild(c, jokerPoint)
    {
      assert c in multiset(a) && c in multiset(b);
    }
  }

  /** Cards that pass as pure and rise are a straight. */
  lemma PureIsStraight(h: seq<Card>, jokerPoint: int)
    requires Rising(h, jokerPoint) && PassesAsPure(h)
    ensures IsStraight(SortCards(h), jokerPoint)
  {
    hide SortCards, Fits, Lowered, IsStraight, Rising, Consecutive, AceAt;
    RisingNatural(h, jokerPoint);
    assert h + [] == h;
    if Consecutive(h) {
      ConsecutivePoints(h, |h| - 1);
      RisingFits(h, |h|, jokerPoint);
    } else {
      var n :| AceAt(h, n);
      PureLowFits(h, n, jokerPoint);
    }
    StraightOf(h, [], jokerPoint);
  }

  lemma PureLowFits(h: seq<Card>, n: int, jokerPoint: int)
    requires Rising(h, jokerPoint) && AceAt(h, n)
    ensures Fits(multiset(Lowered(h)), |h|)
  {
    hide Fits, Lowered, Consecutive;
    var last := |h| - 1;
    assert h[last] in h;
    assert n == last;
    var front, ace := h[..n], h[n];
    ConsecutivePoints(front, n - 1);
    assert h == front + [ace];
    LowFits(front, ace, |h|, jokerPoint);
    LoweredSame([ace] + front, h);
  }

  lemma {:induction false} ConsecutivePoints(h: seq<Card>, i: nat)
    requires Consecutive(h) && i < |h|
    ensures h[i].point == h[0].point + i
  {
    if i > 0 {
      ConsecutivePoints(h, i - 1);
    }
  }

  /** One choice of natural cards: every straight made of it. */
  lemma HandFound(h: seq<Card>, jokers: seq<Card>, jokerPoint: int, g: CardGroup)
    requires Rising(h, jokerPoint) && h != [] && AllWild(jokers, jokerPoint)
    requires g in HandStraights(jokers)(h)
    ensures MadeStraight(g, multiset(h) + multiset(jokers), jokerPoint)
  {
    hide Rising, PassesAsPure, WithJokers, IsStraight, SortCards;
    if g in PureAlone()(h) {
      PureFound(h, jokerPoint, g);
    } else if g in WithJokers(h, jokers) {
      FilledIsStraight(h, jokers, jokerPoint, g);
    } else {
      var front, ace := h[..|h| - 1], h[|h| - 1];
      assert h == front + [ace];
      FilledLowIsStraight(front, ace, jokers, jokerPoint, g);
    }
  }

  lemma PureFound(h: seq<Card>, jokerPoint: int, g: CardGroup)
    requires Rising(h, jokerPoint) && g in PureAlone()(h)
    ensures MadeStraight(g, multiset(h), jokerPoint)
  {
    hide Rising, IsStraight, SortCards;
    PureIsStraight(h, jokerPoint);
    RisingChain(h, jokerPoint);
    SortedStays(h);
  }

  lemma MoreCards(g: CardGroup, m: multiset<Card>, all: multiset<Card>, jokerPoint: int)
    requires MadeStraight(g, m, jokerPoint) && m <= all
    ensures MadeStraight(g, all, jokerPoint)
  {
    hide IsStraight, SortCards;
  }

  lemma {:induction false} InStraightsUpto(flush: seq<Card>, jokers: seq<Card>, n: nat, jokerPoint: int, g: CardGroup)
    requires g in StraightsUpto(flush, jokers, n)
    requires Rising(flush, jokerPoint) && AllWild(jokers, jokerPoint)
    ensures MadeStraight(g, multiset(flush) + multiset(jokers), jokerPoint)
  {
    hide Choose, HandStraights, Rising, Select, MadeStraight;
    if g in FlatMap(Choose(flush, n), HandStraights(jokers)) {
      var k := InFlatMap(Choose(flush, n), HandStraights(jokers), g);
      var h := Choose(flush, n)[k];
      var v := ChoiceMask(flush, n, h);
      SelectRising(flush, v, jokerPoint);
      SelectPart(flush, v);
      HandFound(h, jokers, jokerPoint, g);
      MoreCards(g, multiset(h) + multiset(jokers), multiset(flush) + multiset(jokers), jokerPoint);
    } else {
      InStraightsUpto(flush, jokers, n - 1, jokerPoint, g);
    }
  }

  lemma {:induction false} InPuresUpto(repeats: seq<Card>, n: nat, jokerPoint: int, g: CardGroup)
    requires g in PuresUpto(repeats, n) && Rising(repeats, jokerPoint)
    ensures MadeStraight(g, multiset(repeats), jokerPoint)
  {
    hide Choose, PureAlone, Rising, Select, MadeStraight;
    if g in FlatMap(Choose(repeats, n), PureAlone()) {
      var k := InFlatMap(Choose(repeats, n), PureAlone(), g);
      var h := Choose(repeats, n)[k];
      var v := ChoiceMask(repeats, n, h);
      SelectRising(repeats, v, jokerPoint);
      SelectPart(repeats, v);
      PureFound(h, jokerPoint, g);
      MoreCards(g, multiset(h), multiset(repeats), jokerPoint);
    } else {
      InPuresUpto(repeats, n - 1, jokerPoint, g);
    }
  }

  // ----- a hand

  /** The cards come from the two packs: none three times, and each a suited card or a printed joker. */
  ghost predicate Dealt(m: multiset<Card>) {
    forall c :: c in m ==> m[c] <= 2 && (Suited(c) || Joker(c))
  }

  lemma DealtFromDeck(m: multiset<Card>)
    requires m <= multiset(Deck())
    ensures Dealt(m)
  {
    forall c | c in m
      ensures m[c] <= 2 && (Suited(c) || Joker(c))
    {
      DeckCounts(c);
      assert m[c] <= multiset(Deck())[c];
    }
  }

  lemma DealtPart(m: multiset<Card>, part: multiset<Card>)
    requires Dealt(m) && part <= m
    ensures Dealt(part)
  {
    forall c | c in part
      ensures part[c] <= 2 && (Suited(c) || Joker(c))
    {
      assert c in m && part[c] <= m[c];
    }
  }

  /** The jokers are the wild cards at hand. */
  ghost predicate JokersOf(jokers: multiset<Card>, m: multiset<Card>, jokerPoint: int) {
    forall c :: jokers[c] == if Wild(c, jokerPoint) then m[c] else 0
  }

  lemma JokersAreWild(jokers: seq<Card>, m: multiset<Card>, jokerPoint: int)
    requires JokersOf(multiset(jokers), m, jokerPoint)
    ensures AllWild(jokers, jokerPoint) && multiset(jokers) <= m
  {
    forall c | c in jokers
      ensures Wild(c, jokerPoint)
    {
      assert c in multiset(jokers);
    }
  }

  lemma FlushSorted(cards: seq<Card>, color: nat)
    requires Dealt(multiset(cards))
    ensures OneColor(SortCards(Flush(cards, color)), color)
    ensures forall c :: multiset(SortCards(Flush(cards, color)))[c] <= 2
  {
    hide SortCards, Flush, Sorted;
    var flush := SortCards(Flush(cards, color));
    SortCardsSorted(Flush(cards, color));
    forall c
      ensures multiset(flush)[c] <= 2 && (c in flush ==> c.color == color && 2 <= c.point)
    {
      FlushCount(cards, color, c);
      assert c in flush <==> multiset(flush)[c] > 0;
      assert c in multiset(cards) <==> multiset(cards)[c] > 0;
    }
  }

  /** The first and the repeated cards of a colour, and the jokers, are cards at hand. */
  lemma FlushPart(cards: seq<Card>, jokers: seq<Card>, color: nat, jokerPoint: int)
    requires JokersOf(multiset(jokers), multiset(cards), jokerPoint)
    ensures var flush := SortCards(Flush(cards, color));
            multiset(Firsts(flush, jokerPoint)) + multiset(Repeats(flush, jokerPoint)) + multiset(jokers)
            <= multiset(cards)
  {
    hide SortCards, Flush, Firsts, Repeats, Naturals, Wild;
    var flush := SortCards(Flush(cards, color));
    FirstsAndRepeats(flush, jokerPoint);
    forall c
      ensures multiset(Naturals(flush, jokerPoint))[c] + multiset(jokers)[c] <= multiset(cards)[c]
    {
      NaturalsCount(flush, jokerPoint, c);
      FlushCount(cards, color, c);
    }
  }

  lemma ColorFound(cards: seq<Card>, jokers: seq<Card>, jokerPoint: int, color: nat, g: CardGroup)
    requires Dealt(multiset(cards)) && JokersOf(multiset(jokers), multiset(cards), jokerPoint)
    requires g in ColorStraights(cards, jokers, jokerPoint, color)
    ensures MadeStraight(g, multiset(cards), jokerPoint)
  {
    hide Dealt, JokersOf, SortCards, Flush, Firsts, Repeats, Rising, MadeStraight, OneColor, StraightsUpto, PuresUpto;
    var flush := SortCards(Flush(cards, color));
    var firsts, repeats := Firsts(flush, jokerPoint), Repeats(flush, jokerPoint);
    FlushSorted(cards, color);
    FlushPart(cards, jokers, color, jokerPoint);
    JokersAreWild(jokers, multiset(cards), jokerPoint);
    if g in StraightsUpto(firsts, jokers, |firsts| + |jokers|) {
      FirstsRising(flush, color, jokerPoint);
      InStraightsUpto(firsts, jokers, |firsts| + |jokers|, jokerPoint, g);
      MoreCards(g, multiset(firsts) + multiset(jokers), multiset(cards), jokerPoint);
    } else {
      RepeatsRising(flush, color, jokerPoint);
      InPuresUpto(repeats, |repeats|, jokerPoint, g);
      MoreCards(g, multiset(repeats), multiset(cards), jokerPoint);
    }
  }

  lemma {:induction false} ColorsFound(cards: seq<Card>, jokers: seq<Card>, jokerPoint: int, color: nat, g: CardGroup)
    requires Dealt(multiset(cards)) && JokersOf(multiset(jokers), multiset(cards), jokerPoint)
    requires g in ColorsUpto(cards, jokers, jokerPoint, color)
    ensures MadeStraight(g, multiset(cards), jokerPoint)
  {
    hide Dealt, JokersOf, MadeStraight, ColorStraights;
    if g in ColorStraights(cards, jokers, jokerPoint, color - 1) {
      ColorFound(cards, jokers, jokerPoint, color - 1, g);
    } else {
      ColorsFound(cards, jokers, jokerPoint, color - 1, g);
    }
  }

  /** Wild cards alone never pass as pure. */
  lemma WildNeverPure(w: seq<Card>, jokerPoint: int)
    requires AllWild(w, jokerPoint)
    ensures !PassesAsPure(w)
  {
    if |w| >= 3 {
      assert w[0] in w && w[1] in w;
      forall n
        ensures !AceAt(w, n)
      {
        assert 1 < n < |w| ==> w[..n][0] == w[0] && w[..n][1] == w[1];
      }
    }
  }

  lemma JokersFound(jokers: seq<Card>, jokerPoint: int, g: CardGroup)
    requires AllWild(jokers, jokerPoint) && g in FlatMap(AllCombines(jokers), JokersAlone())
    ensures MadeStraight(g, multiset(jokers), jokerPoint)
  {
    hide Choose, SortCards, Naturals;
    var k := InFlatMap(AllCombines(jokers), JokersAlone(), g);
    var w := AllCombines(jokers)[k];
    CombinesPart(jokers, |jokers|, w);
    WildPart(w, jokers, jokerPoint);
    assert InWindow(multiset([]), 0, |w|);
    StraightOf([], w, jokerPoint);
    assert [] + w == w;
    WildNeverPure(w, jokerPoint);
  }

  /** Every straight found in a hand is one: of cards of the hand, three or more, and by the rules. */
  lemma StraightsAreStraights(cards: seq<Card>, jokers: seq<Card>, jokerPoint: int, g: CardGroup)
    requires Dealt(multiset(cards)) && JokersOf(multiset(jokers), multiset(cards), jokerPoint)
    requires g in StraightGroups(cards, jokers, jokerPoint)
    ensures MadeStraight(g, multiset(cards), jokerPoint)
  {
    hide Dealt, JokersOf, MadeStraight, ColorsUpto, FlatMap;
    if g in ColorsUpto(cards, jokers, jokerPoint, COLORS) {
      ColorsFound(cards, jokers, jokerPoint, COLORS, g);
    } else {
      JokersAreWild(jokers, multiset(cards), jokerPoint);
      JokersFound(jokers, jokerPoint, g);
      MoreCards(g, multiset(jokers), multiset(cards), jokerPoint);
    }
  }

  // ----- sets

  /** Different natural cards of one point. */
  ghost predicate OnePoint(h: seq<Card>, jokerPoint: int) {
    && (forall c, d :: c in h && d in h ==> c.point == d.point)
    && (forall c :: c in h ==> !Wild(c, jokerPoint) && multiset(h)[c] == 1)
  }

  /** What every set found is: made of the cards at hand, three or more. It is a set, and passes as one,
      when it has no more than four cards. */
  ghost predicate MadeSet(g: CardGroup, m: multiset<Card>, jokerPoint: int) {
    && g.kind == GROUP_THREE_KIND && |g.cards| >= 3 && multiset(g.cards) <= m
    && (|g.cards| <= 4 <==> PassesAsSet(SortCards(g.cards), jokerPoint))
    && (|g.cards| <= 4 ==> IsSet(SortCards(g.cards), jokerPoint))
  }

  lemma TwiceCounted(s: seq<Card>, i: nat, j: nat)
    requires i < j < |s| && s[i] == s[j]
    ensures multiset(s)[s[i]] >= 2
  {
    assert s == s[..j] + [s[j]] + s[j + 1..];
    assert s[..j][i] == s[i];
  }

  lemma SetOf(h: seq<Card>, w: seq<Card>, jokerPoint: int)
    requires OnePoint(h, jokerPoint) && AllWild(w, jokerPoint)
    requires |h| >= 2 && 3 <= |h| + |w| <= 4
    ensures IsSet(SortCards(h + w), jokerPoint) && PassesAsSet(SortCards(h + w), jokerPoint)
  {
    hide SortCards, Naturals, Wild, Sorted, PassesAsSet;
    var s := SortCards(h + w);
    NaturalParts(h, w, jokerPoint);
    assert |multiset(Naturals(s, jokerPoint))| == |multiset(h)|;
    forall i, j | 0 <= i < j < |s| && !Wild(s[i], jokerPoint) && !Wild(s[j], jokerPoint)
      ensures SameSet(s[i], s[j])
    {
      NaturalMember(h, w, s, i, jokerPoint);
      NaturalMember(h, w, s, j, jokerPoint);
      if s[i] == s[j] { TwiceCounted(s, i, j); }
    }
    SortCardsSorted(h + w);
    SetIffNaturalsTogether(s, jokerPoint);
  }

  lemma NaturalMember(h: seq<Card>, w: seq<Card>, s: seq<Card>, i: nat, jokerPoint: int)
    requires multiset(s) == multiset(h + w) && AllWild(w, jokerPoint) && i < |s| && !Wild(s[i], jokerPoint)
    ensures s[i] in h && multiset(s)[s[i]] == multiset(h)[s[i]]
  {
    assert s[i] in multiset(s);
    assert multiset(h + w)[s[i]] == multiset(h)[s[i]] + multiset(w)[s[i]];
    assert s[i] !in w;
  }

  lemma {:induction false} SelectMembers(arr: seq<Card>, v: Mask, jokerPoint: int)
    requires |arr| == |v| && OnePoint(arr, jokerPoint)
    ensures OnePoint(Select(arr, v), jokerPoint) && multiset(Select(arr, v)) <= multiset(arr)
  {
    hide Select;
    SelectPart(arr, v);
    var r := Select(arr, v);
    forall c | c in r
      ensures c in arr && multiset(r)[c] == 1
    {
      assert c in multiset(r) && c in multiset(arr) && multiset(r)[c] <= multiset(arr)[c];
    }
  }

  /** One choice of two or more cards of a point, with a choice of jokers or none. */
  lemma SetFound(h: seq<Card>, w: seq<Card>, jokers: seq<Card>, jokerPoint: int)
    requires OnePoint(h, jokerPoint) && |h| >= 2 && |h| + |w| >= 3
    requires AllWild(jokers, jokerPoint) && multiset(w) <= multiset(jokers)
    ensures MadeSet(CardGroup(GROUP_THREE_KIND, h + w), multiset(h) + multiset(jokers), jokerPoint)
  {
    hide OnePoint, SortCards, IsSet, AllWild;
    WildPart(w, jokers, jokerPoint);
    if |h| + |w| <= 4 { SetOf(h, w, jokerPoint); }
  }

  lemma HandSetFound(h: seq<Card>, jokers: seq<Card>, jokerPoint: int, g: CardGroup)
    requires OnePoint(h, jokerPoint) && |h| >= 2 && AllWild(jokers, jokerPoint)
    requires g in HandSets(jokers)(h)
    ensures MadeSet(g, multiset(h) + multiset(jokers), jokerPoint)
  {
    hide OnePoint, MadeSet, AllWild, AllCombines;
    if |h| > 2 && g == CardGroup(GROUP_THREE_KIND, h) {
      assert h + [] == h;
      SetFound(h, [], jokers, jokerPoint);
    } else {
      var k := InFlatMap(AllCombines(jokers), SetWith(h), g);
      var w := AllCombines(jokers)[k];
      AllCombinesPart(jokers, w);
      SetFound(h, w, jokers, jokerPoint);
    }
  }

  lemma AllCombinesPart(jokers: seq<Card>, w: seq<Card>)
    requires w in AllCombines(jokers)
    ensures 1 <= |w| && multiset(w) <= multiset(jokers)
  {
    CombinesPart(jokers, |jokers|, w);
  }

  lemma MoreForSet(g: CardGroup, m: multiset<Card>, all: multiset<Card>, jokerPoint: int)
    requires MadeSet(g, m, jokerPoint) && m <= all
    ensures MadeSet(g, all, jokerPoint)
  {
    hide IsSet, PassesAsSet, SortCards;
  }

  lemma ChosenSetFound(pops: seq<Card>, n: nat, jokers: seq<Card>, jokerPoint: int, g: CardGroup)
    requires OnePoint(pops, jokerPoint) && AllWild(jokers, jokerPoint) && n >= 2
    requires g in FlatMap(Choose(pops, n), HandSets(jokers))
    ensures MadeSet(g, multiset(pops) + multiset(jokers), jokerPoint)
  {
    hide OnePoint, MadeSet, AllWild, Choose, Select, HandSets;
    var k := InFlatMap(Choose(pops, n), HandSets(jokers), g);
    var h := Choose(pops, n)[k];
    var v := ChoiceMask(pops, n, h);
    SelectMembers(pops, v, jokerPoint);
    HandSetFound(h, jokers, jokerPoint, g);
    MoreForSet(g, multiset(h) + multiset(jokers), multiset(pops) + multiset(jokers), jokerPoint);
  }

  lemma RepeatedSetFound(repeats: seq<Card>, n: nat, jokerPoint: int, g: CardGroup)
    requires OnePoint(repeats, jokerPoint) && n >= 3 && g in FlatMap(Choose(repeats, n), SetAlone())
    ensures MadeSet(g, multiset(repeats), jokerPoint)
  {
    hide OnePoint, MadeSet, Choose, Select;
    var k := InFlatMap(Choose(repeats, n), SetAlone(), g);
    var h := Choose(repeats, n)[k];
    var v := ChoiceMask(repeats, n, h);
    SelectMembers(repeats, v, jokerPoint);
    assert h + [] == h;
    SetFound(h, [], [], jokerPoint);
    MoreForSet(g, multiset(h), multiset(repeats), jokerPoint);
  }

  lemma PointSetFound(pops: seq<Card>, repeats: seq<Card>, jokers: seq<Card>, jokerPoint: int, g: CardGroup)
    requires OnePoint(pops, jokerPoint) && OnePoint(repeats, jokerPoint) && AllWild(jokers, jokerPoint)
    requires g in PointSets(pops, repeats, jokers)
    ensures MadeSet(g, multiset(pops) + multiset(repeats) + multiset(jokers), jokerPoint)
  {
    hide OnePoint, MadeSet, AllWild, Choose, HandSets, SetAlone, FlatMap;
    var all := multiset(pops) + multiset(repeats) + multiset(jokers);
    if g in FlatMap(Choose(repeats, 3), SetAlone()) {
      RepeatedSetFound(repeats, 3, jokerPoint, g);
      MoreForSet(g, multiset(repeats), all, jokerPoint);
    } else if g in FlatMap(Choose(repeats, 4), SetAlone()) {
      RepeatedSetFound(repeats, 4, jokerPoint, g);
      MoreForSet(g, multiset(repeats), all, jokerPoint);
    } else {
      var n := if g in FlatMap(Choose(pops, 2), HandSets(jokers)) then 2
               else if g in FlatMap(Choose(pops, 3), HandSets(jokers)) then 3 else 4;
      ChosenSetFound(pops, n, jokers, jokerPoint, g);
      MoreForSet(g, multiset(pops) + multiset(jokers), all, jokerPoint);
    }
  }

  /** The cards popped while the scan is at one point: different, the repeated ones among them; more than
      one card is popped of natural points only. */
  ghost predicate Popped(pops: seq<Card>, repeats: seq<Card>, jokerPoint: int) {
    && (forall c, d :: c in pops && d in pops ==> c.point == d.point)
    && (forall c :: c in pops ==> multiset(pops)[c] == 1)
    && (forall c :: c in repeats ==> c in pops && !Wild(c, jokerPoint))
    && (|pops| >= 2 ==> forall c :: c in pops ==> !Wild(c, jokerPoint))
  }

  lemma PoppedNext(pops: seq<Card>, repeats: seq<Card>, c: Card, jokerPoint: int)
    requires Popped(pops, repeats, jokerPoint) && !Wild(c, jokerPoint)
    requires pops == [] || pops[0].point == c.point
    ensures if c in pops then Popped(pops, repeats + [c], jokerPoint) else Popped(pops + [c], repeats, jokerPoint)
  {
    if c !in pops {
      assert multiset(pops + [c]) == multiset(pops) + multiset{c};
      assert c !in multiset(pops);
      if pops != [] { assert pops[0] in pops; }
    }
  }

  lemma PoppedFirst(c: Card, jokerPoint: int)
    ensures Popped([], [], jokerPoint) && Popped([c], [], jokerPoint)
  {
  }

  lemma PoppedPoints(pops: seq<Card>, repeats: seq<Card>, jokerPoint: int, m: multiset<Card>)
    requires Popped(pops, repeats, jokerPoint) && |pops| >= 2 && Dealt(m)
    requires multiset(pops) + multiset(repeats) <= m
    ensures OnePoint(pops, jokerPoint) && OnePoint(repeats, jokerPoint)
  {
    forall c | c in repeats
      ensures multiset(repeats)[c] == 1
    {
      assert c in multiset(repeats) && c in m;
      assert multiset(pops)[c] == 1 && m[c] <= 2;
      assert (multiset(pops) + multiset(repeats))[c] <= m[c];
    }
  }

  lemma WhenTwoFound(pops: seq<Card>, repeats: seq<Card>, jokers: seq<Card>, jokerPoint: int, m: multiset<Card>,
                     g: CardGroup)
    requires Popped(pops, repeats, jokerPoint) && Dealt(m) && JokersOf(multiset(jokers), m, jokerPoint)
    requires multiset(pops) + multiset(repeats) <= m && g in SetsWhenTwo(pops, repeats, jokers)
    ensures MadeSet(g, m, jokerPoint)
  {
    hide Popped, OnePoint, MadeSet, PointSets, Dealt;
    PoppedPoints(pops, repeats, jokerPoint, m);
    JokersAreWild(jokers, m, jokerPoint);
    PointSetFound(pops, repeats, jokers, jokerPoint, g);
    var part := multiset(pops) + multiset(repeats) + multiset(jokers);
    forall c
      ensures part[c] <= m[c]
    {
      NaturalOrWild(pops, repeats, jokers, jokerPoint, m, c);
    }
    MoreForSet(g, part, m, jokerPoint);
  }

  lemma NaturalOrWild(pops: seq<Card>, repeats: seq<Card>, jokers: seq<Card>, jokerPoint: int, m: multiset<Card>,
                      c: Card)
    requires OnePoint(pops, jokerPoint) && OnePoint(repeats, jokerPoint) && JokersOf(multiset(jokers), m, jokerPoint)
    requires multiset(pops) + multiset(repeats) <= m
    ensures multiset(pops)[c] + multiset(repeats)[c] + multiset(jokers)[c] <= m[c]
  {
    assert (multiset(pops) + multiset(repeats))[c] <= m[c];
    if Wild(c, jokerPoint) {
      assert c !in pops && c !in repeats;
    }
  }

  lemma {:induction false} SetsFromFound(left: seq<Card>, pops: seq<Card>, repeats: seq<Card>, jokers: seq<Card>,
                                         jokerPoint: int, m: multiset<Card>, g: CardGroup)
    requires Popped(pops, repeats, jokerPoint) && Dealt(m) && JokersOf(multiset(jokers), m, jokerPoint)
    requires multiset(pops) + multiset(repeats) + multiset(left) <= m
    requires g in SetsFrom(left, pops, repeats, jokers, jokerPoint)
    ensures MadeSet(g, m, jokerPoint)
    decreases |left|
  {
    hide Popped, MadeSet, Dealt, JokersOf, SetsWhenTwo;
    if g in SetsWhenTwo(pops, repeats, jokers) {
      WhenTwoFound(pops, repeats, jokers, jokerPoint, m, g);
    } else {
      var c, rest := left[0], left[1..];
      assert left == [c] + rest;
      assert multiset(left) == multiset{c} + multiset(rest);
      if (pops == [] || pops[0].point == c.point) && !Wild(c, jokerPoint) {
        PoppedNext(pops, repeats, c, jokerPoint);
        if c in pops {
          SetsFromFound(rest, pops, repeats + [c], jokers, jokerPoint, m, g);
        } else {
          SetsFromFound(rest, pops + [c], repeats, jokers, jokerPoint, m, g);
        }
      } else {
        PoppedFirst(c, jokerPoint);
        assert multiset([c]) + multiset([]) + multiset(rest) == multiset(left);
        SetsFromFound(rest, [c], [], jokers, jokerPoint, m, g);
      }
    }
  }

  /** Every set found in a hand is made of its cards; it passes the rules exactly when it has no more than
      four cards, and then it is a set. */
  lemma SetsAreSets(cards: seq<Card>, jokers: seq<Card>, jokerPoint: int, g: CardGroup)
    requires Dealt(multiset(cards)) && JokersOf(multiset(jokers), multiset(cards), jokerPoint)
    requires g in SetGroups(cards, jokers, jokerPoint)
    ensures MadeSet(g, multiset(cards), jokerPoint)
  {
    hide Dealt, JokersOf, MadeSet, SetsFrom, SortCards;
    PoppedFirst(Card(0, 0), jokerPoint);
    SetsFromFound(SortCards(cards), [], [], jokers, jokerPoint, multiset(cards), g);
  }
}
