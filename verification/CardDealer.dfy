/** The shuffle and the deal of server/server/gamesvr/CardDealer.cpp. The values of rand() are inputs. */
module CardDealer {

  // ----- drawing with swap-with-last

  /** The draw pile after its card at index is taken; the last card is never popped. */
  function Rest<T>(pile: seq<T>, index: nat): (r: seq<T>)
    requires index < |pile|
    ensures |r| == if |pile| > 1 then |pile| - 1 else 1
  {
    if |pile| > 1 then pile[index := pile[|pile| - 1]][..|pile| - 1] else pile
  }

  /** The cards drawn, one for each value of rand(). */
  function Drawn<T>(pile: seq<T>, rolls: seq<nat>): (cards: seq<T>)
    requires |pile| > 0
    ensures |cards| == |rolls|
    decreases |rolls|
  {
    if rolls == [] then []
    else
      var index := rolls[0] % |pile|;
      [pile[index]] + Drawn(Rest(pile, index), rolls[1..])
  }

  lemma RestMultiset<T>(pile: seq<T>, index: nat)
    requires index < |pile| && |pile| > 1
    ensures multiset(pile) == multiset([pile[index]]) + multiset(Rest(pile, index))
  {
    var last := |pile| - 1;
    var swapped := pile[index := pile[last]];
    assert pile == pile[..last] + [pile[last]];
    assert swapped == swapped[..last] + [pile[last]];
    if index == last {
      assert swapped == pile;
    } else {
      assert multiset(swapped) == multiset(pile) - multiset([pile[index]]) + multiset([pile[last]]);
    }
  }

  /** However the draws fall, what is drawn is part of the pile; all of it after as many draws. */
  lemma {:induction false} DrawnFromPile<T>(pile: seq<T>, rolls: seq<nat>)
    requires 0 < |pile| && |rolls| <= |pile|
    ensures multiset(Drawn(pile, rolls)) <= multiset(pile)
    ensures |rolls| == |pile| ==> multiset(Drawn(pile, rolls)) == multiset(pile)
    decreases |rolls|
  {
    if rolls != [] {
      var index := rolls[0] % |pile|;
      var rest := Drawn(Rest(pile, index), rolls[1..]);
      assert multiset(Drawn(pile, rolls)) == multiset([pile[index]]) + multiset(rest);
      if |pile| == 1 {
        assert rest == [];
        assert pile == [pile[index]];
      } else {
        RestMultiset(pile, index);
        DrawnFromPile(Rest(pile, index), rolls[1..]);
      }
    }
  }

  // ----- draws and orders correspond one to one

  /** The k-th draw is below the size of the pile it is made from. */
  ghost predicate Draws(d: seq<nat>, n: nat) {
    |d| == n && forall k :: 0 <= k < n ==> d[k] < n - k
  }

  ghost predicate Distinct<T>(s: seq<T>) {
    forall i, j :: 0 <= i < j < |s| ==> s[i] != s[j]
  }

  lemma RestDistinct<T>(pile: seq<T>, index: nat)
    requires Distinct(pile) && index < |pile|
    ensures Distinct(Rest(pile, index))
    ensures |pile| > 1 ==> forall x :: x in Rest(pile, index) <==> x in pile && x != pile[index]
  {
    if |pile| > 1 {
      var rest, last := Rest(pile, index), |pile| - 1;
      assert forall k :: 0 <= k < |rest| ==> rest[k] == if k == index then pile[last] else pile[k];
      forall x | x in pile && x != pile[index]
        ensures x in rest
      {
        var k :| 0 <= k < |pile| && pile[k] == x;
        if k == last { assert rest[index] == x; } else { assert rest[k] == x; }
      }
    }
  }

  lemma SmallModulo(x: nat, n: nat)
    requires x < n
    ensures x % n == x
  {
  }

  lemma FirstDraw<T>(pile: seq<T>, d: seq<nat>)
    requires d != [] && d[0] < |pile|
    ensures Drawn(pile, d) == [pile[d[0]]] + Drawn(Rest(pile, d[0]), d[1..])
  {
    SmallModulo(d[0], |pile|);
  }

  /** Different draws give different orders. */
  lemma {:induction false} DrawsInjective<T>(pile: seq<T>, d: seq<nat>, e: seq<nat>)
    requires 0 < |pile| && Distinct(pile) && Draws(d, |pile|) && Draws(e, |pile|)
    requires Drawn(pile, d) == Drawn(pile, e)
    ensures d == e
    decreases |pile|
  {
    hide Drawn, Rest;
    FirstDraw(pile, d);
    FirstDraw(pile, e);
    assert Drawn(pile, d)[0] == pile[d[0]] && Drawn(pile, e)[0] == pile[e[0]];
    assert d[0] == e[0];
    assert d == [d[0]] + d[1..] && e == [e[0]] + e[1..];
    if |pile| > 1 {
      var rest := Rest(pile, d[0]);
      RestDistinct(pile, d[0]);
      assert Drawn(pile, d)[1..] == Drawn(rest, d[1..]);
      assert Drawn(pile, e)[1..] == Drawn(rest, e[1..]);
      DrawsInjective(rest, d[1..], e[1..]);
    }
  }

  lemma RestOfOrder<T>(order: seq<T>, pile: seq<T>)
    requires multiset(order) == multiset(pile) && pile != []
    ensures |order| == |pile| && order[0] in pile
    ensures multiset(order) == multiset([order[0]]) + multiset(order[1..])
  {
    assert |multiset(order)| == |multiset(pile)|;
    assert order[0] in multiset(order);
    assert order == [order[0]] + order[1..];
  }

  /** Every order of the pile comes from some draws. */
  lemma {:induction false} DrawsSurjective<T>(pile: seq<T>, order: seq<T>) returns (d: seq<nat>)
    requires 0 < |pile| && Distinct(pile) && multiset(order) == multiset(pile)
    ensures Draws(d, |pile|) && Drawn(pile, d) == order
    decreases |pile|
  {
    hide Drawn, Rest;
    RestOfOrder(order, pile);
    var index: nat :| index < |pile| && pile[index] == order[0];
    var e: seq<nat> := [];
    if |pile| > 1 {
      RestDistinct(pile, index);
      RestMultiset(pile, index);
      assert multiset(order[1..]) == multiset(order) - multiset([order[0]]);
      assert multiset(Rest(pile, index)) == multiset(pile) - multiset([pile[index]]);
      e := DrawsSurjective(Rest(pile, index), order[1..]);
    } else {
      NothingDrawn(Rest(pile, index));
    }
    d := [index] + e;
    assert d[1..] == e;
    FirstDraw(pile, d);
    assert order == [order[0]] + order[1..];
  }

  lemma NothingDrawn<T>(pile: seq<T>)
    requires pile != []
    ensures Drawn(pile, []) == []
  {
  }

  lemma RestByPosition<T>(pile: seq<T>, at: seq<int>, deck: seq<T>, index: nat)
    requires |pile| == |at| && index < |at|
    requires forall i :: 0 <= i < |at| ==> 0 <= at[i] < |deck| && pile[i] == deck[at[i]]
    ensures |Rest(pile, index)| == |Rest(at, index)| > 0
    ensures forall i :: 0 <= i < |Rest(at, index)| ==>
              0 <= Rest(at, index)[i] < |deck| && Rest(pile, index)[i] == deck[Rest(at, index)[i]]
  {
  }

  /** What a shuffle does to cards is what it does to their positions. */
  lemma {:induction false} DrawnByPosition<T>(pile: seq<T>, at: seq<int>, deck: seq<T>, rolls: seq<nat>, k: nat)
    requires 0 < |pile| == |at| && k < |rolls|
    requires forall i :: 0 <= i < |at| ==> 0 <= at[i] < |deck| && pile[i] == deck[at[i]]
    ensures 0 <= Drawn(at, rolls)[k] < |deck| && Drawn(pile, rolls)[k] == deck[Drawn(at, rolls)[k]]
    decreases |rolls|
  {
    hide Drawn, Rest;
    var index := rolls[0] % |pile|;
    DrawnStep(pile, rolls);
    DrawnStep(at, rolls);
    if k > 0 {
      RestByPosition(pile, at, deck, index);
      DrawnByPosition(Rest(pile, index), Rest(at, index), deck, rolls[1..], k - 1);
    }
  }

  /** Positions 0 to n - 1 in order. */
  function Positions(n: nat): (p: seq<int>)
    ensures |p| == n && Distinct(p)
  {
    seq(n, i => i)
  }

  ghost predicate IsOrder(order: seq<int>, n: nat) { multiset(order) == multiset(Positions(n)) }

  /** The shuffle of n cards sends the draws one to one onto the orders of the positions: each order of
      the deck belongs to exactly one sequence of draws, so equally likely draws are an unbiased shuffle. */
  lemma ShuffleIsBijection(n: nat)
    requires n > 0
    ensures forall d :: Draws(d, n) ==> IsOrder(Drawn(Positions(n), d), n)
    ensures forall d, e :: Draws(d, n) && Draws(e, n) && Drawn(Positions(n), d) == Drawn(Positions(n), e) ==> d == e
    ensures forall order :: IsOrder(order, n) ==>
              exists d :: Draws(d, n) && Drawn(Positions(n), d) == order
  {
    var p := Positions(n);
    forall d | Draws(d, n)
      ensures IsOrder(Drawn(p, d), n)
    {
      DrawnFromPile(p, d);
    }
    forall d, e | Draws(d, n) && Draws(e, n) && Drawn(p, d) == Drawn(p, e)
      ensures d == e
    {
      DrawsInjective(p, d, e);
    }
    forall order: seq<int> | IsOrder(order, n)
      ensures exists d :: Draws(d, n) && Drawn(p, d) == order
    {
      var d := DrawsSurjective(p, order);
    }
  }

  /** Whatever the deck, card k of the shuffle is the card at position k of the shuffled positions. */
  lemma ShuffleMovesPositions<T>(deck: seq<T>, rolls: seq<nat>, k: nat)
    requires 0 < |deck| == |rolls| && k < |deck|
    ensures 0 <= Drawn(Positions(|deck|), rolls)[k] < |deck|
    ensures Drawn(deck, rolls)[k] == deck[Drawn(Positions(|deck|), rolls)[k]]
  {
    DrawnByPosition(deck, Positions(|deck|), deck, rolls, k);
  }

  /** A deal of fewer cards is the beginning of a full draw. */
  lemma {:induction false} DealIsPrefix<T>(pile: seq<T>, rolls: seq<nat>, count: nat)
    requires 0 < |pile| && count <= |rolls|
    ensures Drawn(pile, rolls[..count]) == Drawn(pile, rolls)[..count]
    decreases |rolls|
  {
    if count > 0 {
      var index := rolls[0] % |pile|;
      DealIsPrefix(Rest(pile, index), rolls[1..], count - 1);
      assert rolls[..count][1..] == rolls[1..][..count - 1];
    }
  }

  /** rand() % size is the draw: rolls and their reductions shuffle alike. */
  lemma {:induction false} RollsAreDraws<T>(pile: seq<T>, rolls: seq<nat>) returns (d: seq<nat>)
    requires 0 < |pile| == |rolls|
    ensures Draws(d, |pile|) && Drawn(pile, d) == Drawn(pile, rolls)
    decreases |pile|
  {
    var index := rolls[0] % |pile|;
    var e: seq<nat> := [];
    if |pile| > 1 {
      e := RollsAreDraws(Rest(pile, index), rolls[1..]);
    } else {
      NothingDrawn(Rest(pile, index));
      assert rolls[1..] == [];
    }
    d := [index] + e;
    assert d[1..] == e;
    FirstDraw(pile, d);
  }

  // ----- the deck

  datatype Card = Card(color: nat, point: nat)

  const DIAMONDS := 4
  const ACE := 14
  const JOKER1 := 15
  const JOKER2 := 16
  const CARD_COUNT := 108

  /** The card init_cards puts at index k. */
  function DeckCard(k: nat): Card
    requires k < CARD_COUNT
  {
    if k < 104 then Card(k / 26 + 1, k % 26 / 2 + 2)
    else if k < 106 then Card(0, JOKER1) else Card(0, JOKER2)
  }

  function Deck(): (d: seq<Card>)
    ensures |d| == CARD_COUNT
  {
    seq(CARD_COUNT, k requires 0 <= k < CARD_COUNT => DeckCard(k))
  }

  predicate Suited(c: Card) { 1 <= c.color <= DIAMONDS && 2 <= c.point <= ACE }

  predicate Joker(c: Card) { c.color == 0 && (c.point == JOKER1 || c.point == JOKER2) }

  lemma CountNone<T>(s: seq<T>, x: T)
    requires forall k :: 0 <= k < |s| ==> s[k] != x
    ensures multiset(s)[x] == 0
  {
    assert x !in s;
  }

  lemma CountPair<T>(s: seq<T>, x: T, i: nat)
    requires i + 1 < |s|
    requires forall k :: 0 <= k < |s| ==> (s[k] == x <==> k == i || k == i + 1)
    ensures multiset(s)[x] == 2
  {
    assert s == s[..i] + [s[i], s[i + 1]] + s[i + 2..];
    CountNone(s[..i], x);
    CountNone(s[i + 2..], x);
  }

  lemma SuitedAt(c: Card, k: nat)
    requires Suited(c) && k < CARD_COUNT
    ensures var i := 26 * (c.color - 1) + 2 * (c.point - 2); DeckCard(k) == c <==> k == i || k == i + 1
  {
  }

  /** The full deck: every suited card twice, both jokers twice, nothing else. */
  lemma DeckCounts(c: Card)
    ensures multiset(Deck())[c] == if Suited(c) || Joker(c) then 2 else 0
  {
    if Suited(c) {
      var i := 26 * (c.color - 1) + 2 * (c.point - 2);
      forall k | 0 <= k < CARD_COUNT
        ensures Deck()[k] == c <==> k == i || k == i + 1
      {
        SuitedAt(c, k);
      }
      CountPair(Deck(), c, i);
    } else if Joker(c) {
      CountPair(Deck(), c, if c.point == JOKER1 then 104 else 106);
    } else {
      CountNone(Deck(), c);
    }
  }

  /** One turn of the drawing loop. */
  lemma DrawOne<T>(taken: seq<T>, pile: seq<T>, rolls: seq<nat>, n: nat)
    requires pile != [] && n < |rolls|
    ensures var index := rolls[n] % |pile|;
            taken + Drawn(pile, rolls[n..]) == (taken + [pile[index]]) + Drawn(Rest(pile, index), rolls[n + 1..])
  {
    hide Drawn, Rest;
    DrawnStep(pile, rolls[n..]);
    assert rolls[n..][1..] == rolls[n + 1..];
    var index := rolls[n] % |pile|;
    Regroup(taken, [pile[index]], Drawn(Rest(pile, index), rolls[n + 1..]));
  }

  lemma DrawnStep<T>(pile: seq<T>, rolls: seq<nat>)
    requires pile != [] && rolls != []
    ensures Drawn(pile, rolls)
         == [pile[rolls[0] % |pile|]] + Drawn(Rest(pile, rolls[0] % |pile|), rolls[1..])
  {
  }

  lemma Regroup<T>(a: seq<T>, b: seq<T>, c: seq<T>)
    ensures a + (b + c) == (a + b) + c
  {
  }

  const WARM_UP := 1000

  /** One value of rand() for each card of a full draw. */
  predicate FullRolls(rolls: seq<nat>) { |rolls| == CARD_COUNT }

  /** One shuffle after another, each drawing the whole pile. */
  function Shuffled<T>(pile: seq<T>, rolls: seq<seq<nat>>): (r: seq<T>)
    requires |pile| == CARD_COUNT && forall k :: 0 <= k < |rolls| ==> FullRolls(rolls[k])
    ensures |r| == |pile|
  {
    if rolls == [] then pile
    else
      assert FullRolls(rolls[|rolls| - 1]);
      Drawn(Shuffled(pile, rolls[..|rolls| - 1]), rolls[|rolls| - 1])
  }

  class Dealer {
    var cards: seq<Card>
    var allCard: seq<Card>

    /** The pile is always the full deck in some order. */
    ghost predicate Valid()
      reads this
    {
      allCard == Deck() && |cards| == CARD_COUNT && multiset(cards) == multiset(Deck())
    }

    /** init_cards, with a thousand shuffles after the deck is laid out. */
    constructor (rolls: seq<seq<nat>>)
      requires |rolls| == WARM_UP == 1000 && forall k :: 0 <= k < |rolls| ==> FullRolls(rolls[k])
      ensures Valid() && cards == Shuffled(Deck(), rolls)
    {
      cards, allCard := [], [];
      new;
      hide Drawn;
      LayOut();
      allCard := cards;
      assert cards == Deck();
      for i := 0 to WARM_UP
        invariant Valid() && cards == Shuffled(Deck(), rolls[..i])
      {
        assert rolls[..i + 1][..i] == rolls[..i];
        RandRankCards(rolls[i]);
      }
      assert rolls[..WARM_UP] == rolls;
    }

    /** The nested loops and the four jokers; the running index ends at CARD_COUNT. */
    method LayOut()
      modifies this`cards
      ensures |cards| == CARD_COUNT && forall k :: 0 <= k < CARD_COUNT ==> cards[k] == DeckCard(k)
    {
      cards := seq(CARD_COUNT, _ => Card(0, 0));
      var index := 0;
      for i := 0 to DIAMONDS
        invariant index == 26 * i && |cards| == CARD_COUNT
        invariant forall k :: 0 <= k < index ==> cards[k] == DeckCard(k)
      {
        for j := 0 to ACE - 1
          invariant index == 26 * i + 2 * j && |cards| == CARD_COUNT
          invariant forall k :: 0 <= k < index ==> cards[k] == DeckCard(k)
        {
          cards := cards[index := Card(i + 1, j + 2)];
          index := index + 1;
          cards := cards[index := Card(i + 1, j + 2)];
          index := index + 1;
        }
      }
      cards := cards[index := Card(0, JOKER1)];
      index := index + 1;
      cards := cards[index := Card(0, JOKER1)];
      index := index + 1;
      cards := cards[index := Card(0, JOKER2)];
      index := index + 1;
      cards := cards[index := Card(0, JOKER2)];
      index := index + 1;
      assert index == CARD_COUNT;
    }

    /** rand_rank_cards. */
    method RandRankCards(rolls: seq<nat>)
      requires Valid() && FullRolls(rolls)
      modifies this`cards
      ensures Valid() && cards == Drawn(old(cards), rolls)
    {
      hide Drawn, Deck;
      var pile := cards;
      cards := [];
      var getCount := 0;
      assert rolls[0..] == rolls;
      while getCount < CARD_COUNT
        invariant 0 <= getCount <= CARD_COUNT && |pile| > 0
        invariant getCount < CARD_COUNT ==> |pile| == CARD_COUNT - getCount
        invariant cards + Drawn(pile, rolls[getCount..]) == Drawn(old(cards), rolls)
      {
        DrawOne(cards, pile, rolls, getCount);
        var index := rolls[getCount] % |pile|;
        cards := cards + [pile[index]];
        getCount := getCount + 1;
        if |pile| > 1 {
          pile := pile[index := pile[|pile| - 1]];
          pile := pile[..|pile| - 1];
        }
      }
      NothingDrawn(pile);
      assert rolls[getCount..] == [] && cards + [] == cards;
      DrawnFromPile(old(cards), rolls);
    }

    /** deal_card: shuffle, then append count cards drawn from the shuffled pile. */
    method DealCard(hand: seq<Card>, count: nat, shuffle: seq<nat>, rolls: seq<nat>) returns (dealt: seq<Card>)
      requires Valid() && FullRolls(shuffle) && count <= CARD_COUNT && |rolls| == count
      modifies this`cards
      ensures Valid() && cards == Drawn(old(cards), shuffle)
      ensures dealt == hand + Drawn(cards, rolls)
      ensures |dealt| == |hand| + count && multiset(dealt[|hand|..]) <= multiset(Deck())
    {
      hide Drawn, Deck;
      RandRankCards(shuffle);
      var pile := cards;
      dealt := hand;
      var getCount := 0;
      assert rolls[0..] == rolls;
      while getCount < count
        invariant 0 <= getCount <= count && |pile| > 0
        invariant dealt + Drawn(pile, rolls[getCount..]) == hand + Drawn(cards, rolls)
        modifies {}
      {
        DrawOne(dealt, pile, rolls, getCount);
        var index := rolls[getCount] % |pile|;
        dealt := dealt + [pile[index]];
        getCount := getCount + 1;
        if |pile| > 1 {
          pile := pile[index := pile[|pile| - 1]];
          pile := pile[..|pile| - 1];
        }
      }
      NothingDrawn(pile);
      assert rolls[getCount..] == [] && dealt + [] == dealt;
      assert dealt[|hand|..] == Drawn(cards, rolls);
      DrawnFromPile(cards, rolls);
    }
  }

  // ----- where cards go

  /** Each pair of a suited card stands side by side, colour by colour and point by point; the printed jokers
      stand at the end. */
  lemma DeckPlaces(color: nat, point: nat)
    requires 1 <= color <= 4 && 2 <= point <= 14
    ensures var k := 26 * (color - 1) + 2 * (point - 2);
            Deck()[k] == Card(color, point) && Deck()[k + 1] == Card(color, point)
    ensures Deck()[104] == Card(0, 15) && Deck()[105] == Card(0, 15)
    ensures Deck()[106] == Card(0, 16) && Deck()[107] == Card(0, 16)
  {
  }

  /** Taking a card moves the last one into its place and leaves the others where they are. */
  lemma RestPlaces<T>(pile: seq<T>, index: nat)
    requires index < |pile|
    ensures |pile| > 1 ==> |Rest(pile, index)| == |pile| - 1
    ensures |pile| > 1 && index < |pile| - 1 ==> Rest(pile, index)[index] == pile[|pile| - 1]
    ensures |pile| > 1 ==> forall k :: 0 <= k < |pile| - 1 && k != index ==> Rest(pile, index)[k] == pile[k]
    ensures |pile| == 1 ==> Rest(pile, index) == pile
  {
  }

  /** What the first roll draws, and the second from what is left. */
  lemma FirstDrawn<T>(pile: seq<T>, rolls: seq<nat>)
    requires |pile| > 1 && |rolls| >= 2
    ensures var i, j := rolls[0] % |pile|, rolls[1] % (|pile| - 1);
            && Drawn(pile, rolls)[0] == pile[i]
            && Drawn(pile, rolls)[1] == (if j == i then pile[|pile| - 1] else pile[j])
  {
    var rest := Rest(pile, rolls[0] % |pile|);
    RestPlaces(pile, rolls[0] % |pile|);
    assert rolls[1..] != [] && Drawn(rest, rolls[1..])[0] == rest[rolls[1] % |rest|];
  }
}
