/**
 * The Memory Match game: 16 cards carrying 8 symbols twice, shuffled by
 * Fisher-Yates; a click flips a card, and when two are up a timeout either
 * marks them matched or turns them back.
 *
 * `State` and the functions over it are the specification; the class
 * `MemoryGame` updates the same fields as the component and is proved to
 * compute those functions. The random index of each shuffle step and the
 * firing of each timeout are explicit inputs.
 */
module Memory {
  import opened Wrappers
  import opened Decimal

  const SYMBOLS: seq<string> := ["🐛", "⚡", "🔐", "💻", "🚀", "🎮", "🔧", "💾"]
  const PAIRS: nat := 8
  const DECK_SIZE: nat := 16

  datatype Card = Card(id: int, symbol: string, isFlipped: bool, isMatched: bool)

  lemma SymbolsDistinct()
    ensures |SYMBOLS| == PAIRS
    ensures forall a, b :: 0 <= a < b < PAIRS ==> SYMBOLS[a] != SYMBOLS[b]
  {
  }

  // ---------------------------------------------------------------------
  // Counting cards
  // ---------------------------------------------------------------------

  /** How many cards satisfy `p`. */
  function Count(cards: seq<Card>, p: Card -> bool): nat
    decreases |cards|
  {
    if |cards| == 0 then 0 else (if p(cards[0]) then 1 else 0) + Count(cards[1..], p)
  }

  function HasId(id: int): Card -> bool {
    (c: Card) => c.id == id
  }

  function HasSymbol(symbol: string): Card -> bool {
    (c: Card) => c.symbol == symbol
  }

  function IsMatched(): Card -> bool {
    (c: Card) => c.isMatched
  }

  lemma {:induction false} CountAppend(a: seq<Card>, b: seq<Card>, p: Card -> bool)
    ensures Count(a + b, p) == Count(a, p) + Count(b, p)
    decreases |a|
  {
    if |a| == 0 {
      assert a + b == b;
    } else {
      assert (a + b)[0] == a[0];
      assert (a + b)[1..] == a[1..] + b;
      CountAppend(a[1..], b, p);
    }
  }

  lemma {:induction false} CountNone(a: seq<Card>, p: Card -> bool)
    requires forall i :: 0 <= i < |a| ==> !p(a[i])
    ensures Count(a, p) == 0
    decreases |a|
  {
    if |a| > 0 {
      CountNone(a[1..], p);
    }
  }

  /** Two sequences that agree on `p` position by position have the same count. */
  lemma {:induction false} CountPointwise(a: seq<Card>, b: seq<Card>, p: Card -> bool)
    requires |a| == |b| && forall i :: 0 <= i < |a| ==> p(a[i]) == p(b[i])
    ensures Count(a, p) == Count(b, p)
    decreases |a|
  {
    if |a| > 0 {
      CountPointwise(a[1..], b[1..], p);
    }
  }

  /** A permutation keeps every count. */
  lemma {:induction false} CountPermutation(a: seq<Card>, b: seq<Card>, p: Card -> bool)
    requires multiset(a) == multiset(b)
    ensures Count(a, p) == Count(b, p)
    decreases |a|
  {
    if |a| == 0 {
      assert |b| == |multiset(b)| == 0;
    } else {
      var x := a[0];
      var k := IndexOfCard(b, x);
      var rest := b[..k] + b[k + 1..];
      CountWithout(b, p, k);
      MultisetTails(a, b, k);
      CountPermutation(a[1..], rest, p);
      assert Count(a, p) == (if p(x) then 1 else 0) + Count(a[1..], p);
    }
  }

  /** Taking the first card out of `a` and the same card out of `b` keeps them permutations. */
  lemma MultisetTails(a: seq<Card>, b: seq<Card>, k: nat)
    requires multiset(a) == multiset(b) && 0 < |a| && k < |b| && b[k] == a[0]
    ensures multiset(a[1..]) == multiset(b[..k] + b[k + 1..])
  {
    var x := a[0];
    var rest := b[..k] + b[k + 1..];
    assert a == [x] + a[1..];
    assert multiset(a) == multiset{x} + multiset(a[1..]);
    assert b == b[..k] + [x] + b[k + 1..];
    assert multiset(b) == multiset(b[..k]) + multiset{x} + multiset(b[k + 1..]);
    assert multiset(rest) == multiset(b[..k]) + multiset(b[k + 1..]);
    forall y ensures multiset(a[1..])[y] == multiset(rest)[y] {
      assert multiset(a)[y] == multiset{x}[y] + multiset(a[1..])[y];
      assert multiset(b)[y] == multiset{x}[y] + multiset(rest)[y];
    }
  }

  /** A position of a card that the sequence holds. */
  lemma IndexOfCard(s: seq<Card>, x: Card) returns (k: nat)
    requires x in multiset(s)
    ensures k < |s| && s[k] == x
  {
    assert x in s;
    k :| 0 <= k < |s| && s[k] == x;
  }

  /** The count is that of position k plus that of the rest. */
  lemma CountWithout(s: seq<Card>, p: Card -> bool, k: nat)
    requires k < |s|
    ensures Count(s, p) == (if p(s[k]) then 1 else 0) + Count(s[..k] + s[k + 1..], p)
  {
    CountAt(s, p, k);
    CountAppend(s[..k], s[k + 1..], p);
  }

  lemma CountSingle(c: Card, p: Card -> bool)
    ensures Count([c], p) == if p(c) then 1 else 0
  {
    assert [c][1..] == [];
  }

  /** Cutting at position i: the count before it, the card itself, and the count after it. */
  lemma CountAt(a: seq<Card>, p: Card -> bool, i: nat)
    requires i < |a|
    ensures Count(a, p) == Count(a[..i], p) + (if p(a[i]) then 1 else 0) + Count(a[i + 1..], p)
  {
    assert a == a[..i] + ([a[i]] + a[i + 1..]);
    CountAppend(a[..i], [a[i]] + a[i + 1..], p);
    assert ([a[i]] + a[i + 1..])[1..] == a[i + 1..];
  }

  /** Changing one position changes the count by what that position contributes. */
  lemma CountChange(a: seq<Card>, b: seq<Card>, p: Card -> bool, i: nat)
    requires |a| == |b| && i < |a|
    requires forall k :: 0 <= k < |a| && k != i ==> p(a[k]) == p(b[k])
    ensures Count(b, p) + (if p(a[i]) then 1 else 0) == Count(a, p) + (if p(b[i]) then 1 else 0)
  {
    CountAt(a, p, i);
    CountAt(b, p, i);
    CountPointwise(a[..i], b[..i], p);
    CountPointwise(a[i + 1..], b[i + 1..], p);
  }

  /** Exactly the two positions `i` and `j` satisfy `p`. */
  lemma CountTwo(a: seq<Card>, p: Card -> bool, i: nat, j: nat)
    requires i < j < |a| && p(a[i]) && p(a[j])
    requires forall k :: 0 <= k < |a| && k != i && k != j ==> !p(a[k])
    ensures Count(a, p) == 2
  {
    CountAt(a, p, j);
    CountAt(a[..j], p, i);
    assert a[..j][..i] == a[..i] && a[..j][i + 1..] == a[i + 1..j];
    CountNone(a[..i], p);
    CountNone(a[i + 1..j], p);
    CountNone(a[j + 1..], p);
  }

  /** Two cards at different positions with the same id make that id's count at least 2. */
  lemma CountAtLeastTwo(a: seq<Card>, p: Card -> bool, i: nat, j: nat)
    requires i < j < |a| && p(a[i]) && p(a[j])
    ensures Count(a, p) >= 2
  {
    assert a == a[..j] + a[j..];
    CountAppend(a[..j], a[j..], p);
    assert a[..j] == a[..i] + a[i..j];
    CountAppend(a[..i], a[i..j], p);
  }

  // ---------------------------------------------------------------------
  // The deck
  // ---------------------------------------------------------------------

  /** The deck before the shuffle: position i holds card i, showing symbol i / 2. */
  function Deck(): (d: seq<Card>)
    ensures |d| == DECK_SIZE
  {
    seq(DECK_SIZE, i requires 0 <= i < DECK_SIZE => Card(i, SYMBOLS[i / 2], false, false))
  }

  /** The two cards pushed for symbol k. */
  function PairOf(k: nat): seq<Card>
    requires k < PAIRS
  {
    [Card(2 * k, SYMBOLS[k], false, false), Card(2 * k + 1, SYMBOLS[k], false, false)]
  }

  lemma DeckSplit(k: nat)
    requires k < PAIRS
    ensures Deck()[2 * k..] == PairOf(k) + Deck()[2 * k + 2..]
    ensures Deck()[..2 * k + 2] == Deck()[..2 * k] + PairOf(k)
  {
  }

  lemma {:induction false} DeckIdCount(k: nat, id: int)
    requires k <= PAIRS
    ensures Count(Deck()[2 * k..], HasId(id)) == if 2 * k <= id < DECK_SIZE then 1 else 0
    decreases PAIRS - k
  {
    if k < PAIRS {
      var pair := PairOf(k);
      DeckSplit(k);
      CountAppend(pair, Deck()[2 * k + 2..], HasId(id));
      assert pair == [pair[0]] + [pair[1]];
      CountAppend([pair[0]], [pair[1]], HasId(id));
      CountSingle(pair[0], HasId(id));
      CountSingle(pair[1], HasId(id));
      DeckIdCount(k + 1, id);
    } else {
      assert Deck()[2 * k..] == [];
    }
  }

  lemma {:induction false} DeckSymbolCount(k: nat, m: nat)
    requires k <= PAIRS && m < PAIRS
    ensures Count(Deck()[2 * k..], HasSymbol(SYMBOLS[m])) == if k <= m then 2 else 0
    decreases PAIRS - k
  {
    var p := HasSymbol(SYMBOLS[m]);
    if k < PAIRS {
      var pair := PairOf(k);
      DeckSplit(k);
      CountAppend(pair, Deck()[2 * k + 2..], p);
      assert pair == [pair[0]] + [pair[1]];
      CountAppend([pair[0]], [pair[1]], p);
      CountSingle(pair[0], p);
      CountSingle(pair[1], p);
      DeckSymbolCount(k + 1, m);
      assert p(pair[0]) == p(pair[1]) == (k == m) by {
        SymbolsDistinct();
        assert k != m ==> SYMBOLS[k] != SYMBOLS[m] by {
          if k < m { } else if m < k { }
        }
      }
    } else {
      assert Deck()[2 * k..] == [];
    }
  }

  /** Any arrangement of the deck has 16 cards, each id 0..15 once, each symbol twice, all face down. */
  lemma ShuffledDeck(cards: seq<Card>)
    requires multiset(cards) == multiset(Deck())
    ensures |cards| == DECK_SIZE
    ensures forall id :: 0 <= id < DECK_SIZE ==> Count(cards, HasId(id)) == 1
    ensures forall m :: 0 <= m < PAIRS ==> Count(cards, HasSymbol(SYMBOLS[m])) == 2
    ensures forall i :: 0 <= i < |cards| ==> !cards[i].isFlipped && !cards[i].isMatched
    ensures DistinctIds(cards)
  {
    assert |cards| == |multiset(cards)| == |multiset(Deck())| == |Deck()|;
    ShuffledIds(cards);
    ShuffledSymbols(cards);
    ShuffledFaceDown(cards);
    IdsOnceDistinct(cards);
  }

  lemma ShuffledIds(cards: seq<Card>)
    requires multiset(cards) == multiset(Deck())
    ensures forall id :: 0 <= id < DECK_SIZE ==> Count(cards, HasId(id)) == 1
  {
    forall id | 0 <= id < DECK_SIZE ensures Count(cards, HasId(id)) == 1 {
      assert Count(Deck(), HasId(id)) == 1 by {
        DeckIdCount(0, id);
        assert Deck()[2 * 0..] == Deck();
      }
      CountPermutation(cards, Deck(), HasId(id));
    }
  }

  lemma ShuffledSymbols(cards: seq<Card>)
    requires multiset(cards) == multiset(Deck())
    ensures forall m :: 0 <= m < PAIRS ==> Count(cards, HasSymbol(SYMBOLS[m])) == 2
  {
    forall m | 0 <= m < PAIRS ensures Count(cards, HasSymbol(SYMBOLS[m])) == 2 {
      assert Count(Deck(), HasSymbol(SYMBOLS[m])) == 2 by {
        DeckSymbolCount(0, m);
        assert Deck()[2 * 0..] == Deck();
      }
      CountPermutation(cards, Deck(), HasSymbol(SYMBOLS[m]));
    }
  }

  lemma ShuffledFaceDown(cards: seq<Card>)
    requires multiset(cards) == multiset(Deck())
    ensures forall i :: 0 <= i < |cards| ==> !cards[i].isFlipped && !cards[i].isMatched && 0 <= cards[i].id < DECK_SIZE
  {
    forall i | 0 <= i < |cards| ensures !cards[i].isFlipped && !cards[i].isMatched && 0 <= cards[i].id < DECK_SIZE {
      assert cards[i] in multiset(Deck());
    }
  }

  /** Cards whose every id in range occurs once have distinct ids. */
  lemma IdsOnceDistinct(cards: seq<Card>)
    requires forall id :: 0 <= id < DECK_SIZE ==> Count(cards, HasId(id)) == 1
    requires forall i :: 0 <= i < |cards| ==> 0 <= cards[i].id < DECK_SIZE
    ensures DistinctIds(cards)
  {
    forall i, j | 0 <= i < j < |cards| ensures cards[i].id != cards[j].id {
      SharedIdCountsTwice(cards, i, j);
      assert Count(cards, HasId(cards[i].id)) == 1;
    }
  }

  lemma SharedIdCountsTwice(cards: seq<Card>, i: nat, j: nat)
    requires i < j < |cards|
    ensures cards[i].id == cards[j].id ==> Count(cards, HasId(cards[i].id)) >= 2
  {
    if cards[i].id == cards[j].id {
      CountAtLeastTwo(cards, HasId(cards[i].id), i, j);
    }
  }

  // ---------------------------------------------------------------------
  // Fisher-Yates
  // ---------------------------------------------------------------------

  /** The random index of step i lies in [0, i], one per position of the deck. */
  predicate ValidPicks(picks: seq<nat>) {
    |picks| == DECK_SIZE && forall i :: 0 <= i < |picks| ==> picks[i] <= i
  }

  function Swap(s: seq<Card>, i: nat, j: nat): (r: seq<Card>)
    requires i < |s| && j < |s|
    ensures |r| == |s|
  {
    s[i := s[j]][j := s[i]]
  }

  /** A swap exchanges two entries and nothing else. */
  lemma SwapPermutes(s: seq<Card>, i: nat, j: nat)
    requires i < |s| && j < |s|
    ensures multiset(Swap(s, i, j)) == multiset(s)
    ensures Swap(s, i, j)[i] == s[j] && Swap(s, i, j)[j] == s[i]
    ensures forall k :: 0 <= k < |s| && k != i && k != j ==> Swap(s, i, j)[k] == s[k]
  {
  }

  /** The swaps for positions n-1 down to 1, in that order. */
  function FisherYates(s: seq<Card>, picks: seq<nat>, n: nat): (r: seq<Card>)
    requires n <= |s| && n <= |picks|
    requires forall i :: 0 <= i < |picks| ==> picks[i] <= i
    ensures |r| == |s|
    decreases n
  {
    if n <= 1 then s else FisherYates(Swap(s, n - 1, picks[n - 1]), picks, n - 1)
  }

  /** The shuffle deals the same cards it was given, in some order. */
  lemma {:induction false} FisherYatesPermutes(s: seq<Card>, picks: seq<nat>, n: nat)
    requires n <= |s| && n <= |picks|
    requires forall i :: 0 <= i < |picks| ==> picks[i] <= i
    ensures multiset(FisherYates(s, picks, n)) == multiset(s)
    decreases n
  {
    if n > 1 {
      SwapPermutes(s, n - 1, picks[n - 1]);
      FisherYatesPermutes(Swap(s, n - 1, picks[n - 1]), picks, n - 1);
    }
  }

  // ---------------------------------------------------------------------
  // The state
  // ---------------------------------------------------------------------

  /** A scheduled timeout of the click handler, with the clock value it captured. */
  datatype Resolution = MatchPair(first: int, second: int, time: nat) | MismatchPair(first: int, second: int)

  /** `bestTime == None` is the component's `Infinity`. */
  datatype State = State(
    cards: seq<Card>,
    flipped: seq<int>,
    moves: nat,
    matches: nat,
    gameStarted: bool,
    gameWon: bool,
    time: nat,
    bestTime: Option<nat>,
    pending: Option<Resolution>)

  predicate DistinctIds(cards: seq<Card>) {
    forall i, j :: 0 <= i < j < |cards| ==> cards[i].id != cards[j].id
  }

  /** Some card with this id is face up and not yet matched. */
  predicate FaceUp(cards: seq<Card>, id: int) {
    exists i :: 0 <= i < |cards| && cards[i].id == id && cards[i].isFlipped && !cards[i].isMatched
  }

  /**
   * What holds in every reachable state: at most two distinct face-up,
   * unmatched cards are listed as flipped; a timeout is pending exactly when
   * two are; `matches` counts the matched pairs; the game is won exactly at 8.
   */
  ghost predicate Inv(s: State) {
    && DistinctIds(s.cards)
    && |s.flipped| <= 2
    && (forall k :: 0 <= k < |s.flipped| ==> FaceUp(s.cards, s.flipped[k]))
    && (|s.flipped| == 2 ==> s.flipped[0] != s.flipped[1])
    && (s.pending.Some? <==> |s.flipped| == 2)
    && (s.pending.Some? ==>
          && s.pending.value.first == s.flipped[0] && s.pending.value.second == s.flipped[1]
          && s.gameStarted && !s.gameWon)
    && 2 * s.matches == Count(s.cards, IsMatched())
    && s.matches + (if s.pending.Some? then 1 else 0) <= s.moves
    && (s.gameWon <==> s.matches == PAIRS)
  }

  function Initial(saved: Option<nat>): (r: State)
    ensures Inv(r) && !r.gameStarted && r.bestTime == saved
  {
    State([], [], 0, 0, false, false, 0, saved, None)
  }

  // ---------------------------------------------------------------------
  // Starting a game
  // ---------------------------------------------------------------------

  function Init(s: State, picks: seq<nat>): (r: State)
    requires ValidPicks(picks)
  {
    s.(cards := FisherYates(Deck(), picks, DECK_SIZE), flipped := [], moves := 0, matches := 0,
       gameStarted := true, gameWon := false, time := 0, pending := None)
  }

  /** A new game: a permutation of the deck, all counters at zero, the best time kept. */
  lemma InitDeals(s: State, picks: seq<nat>)
    requires ValidPicks(picks)
    ensures var r := Init(s, picks);
      && multiset(r.cards) == multiset(Deck())
      && |r.cards| == DECK_SIZE
      && (forall id :: 0 <= id < DECK_SIZE ==> Count(r.cards, HasId(id)) == 1)
      && (forall m :: 0 <= m < PAIRS ==> Count(r.cards, HasSymbol(SYMBOLS[m])) == 2)
      && (forall i :: 0 <= i < |r.cards| ==> !r.cards[i].isFlipped && !r.cards[i].isMatched)
      && r.flipped == [] && r.moves == 0 && r.matches == 0 && r.time == 0
      && r.gameStarted && !r.gameWon && r.bestTime == s.bestTime
  {
    FisherYatesPermutes(Deck(), picks, DECK_SIZE);
    ShuffledDeck(Init(s, picks).cards);
  }

  lemma InitKeepsInv(s: State, picks: seq<nat>)
    requires ValidPicks(picks)
    ensures Inv(Init(s, picks))
  {
    var cards := Init(s, picks).cards;
    FisherYatesPermutes(Deck(), picks, DECK_SIZE);
    ShuffledDeck(cards);
    CountNone(cards, IsMatched());
  }

  /** Space or Enter deals a new game when none is running or the last one is won. */
  function OnKey(s: State, key: string, picks: seq<nat>): (r: State)
    requires ValidPicks(picks)
  {
    if (key == " " || key == "Enter") && (!s.gameStarted || s.gameWon) then Init(s, picks) else s
  }

  lemma OnKeyKeepsInv(s: State, key: string, picks: seq<nat>)
    requires Inv(s) && ValidPicks(picks)
    ensures Inv(OnKey(s, key, picks))
  {
    InitKeepsInv(s, picks);
  }

  // ---------------------------------------------------------------------
  // Clicking a card
  // ---------------------------------------------------------------------

  /** Position i holds the first card with this id. */
  predicate FirstWithId(cards: seq<Card>, id: int, i: int) {
    0 <= i < |cards| && cards[i].id == id && forall k :: 0 <= k < i ==> cards[k].id != id
  }

  /** `cards.find(c => c.id === id)`: the first card with that id. */
  function FindCard(cards: seq<Card>, id: int): (r: Option<Card>)
    ensures r.None? <==> forall i :: 0 <= i < |cards| ==> cards[i].id != id
    ensures r.Some? ==> exists i :: FirstWithId(cards, id, i) && cards[i] == r.value
    decreases |cards|
  {
    if |cards| == 0 then None
    else if cards[0].id == id then (assert FirstWithId(cards, id, 0); Some(cards[0]))
    else
      var r := FindCard(cards[1..], id);
      assert r.Some? ==> exists i :: FirstWithId(cards, id, i) && cards[i] == r.value by {
        if r.Some? {
          var i :| FirstWithId(cards[1..], id, i) && cards[1..][i] == r.value;
          assert cards[i + 1] == r.value;
          forall k | 0 < k < i + 1 ensures cards[k].id != id {
            assert cards[k] == cards[1..][k - 1];
          }
          assert FirstWithId(cards, id, i + 1);
        }
      }
      r
  }

  /** With distinct ids, the card found is the one at the position holding the id. */
  lemma FindCardAt(cards: seq<Card>, i: nat)
    requires DistinctIds(cards) && i < |cards|
    ensures FindCard(cards, cards[i].id) == Some(cards[i])
  {
  }

  function FlipUp(cards: seq<Card>, id: int): (r: seq<Card>) {
    seq(|cards|, i requires 0 <= i < |cards| => if cards[i].id == id then cards[i].(isFlipped := true) else cards[i])
  }

  function MarkMatched(cards: seq<Card>, first: int, second: int): (r: seq<Card>) {
    seq(|cards|, i requires 0 <= i < |cards| =>
      if cards[i].id == first || cards[i].id == second then cards[i].(isMatched := true) else cards[i])
  }

  function FlipDown(cards: seq<Card>, first: int, second: int): (r: seq<Card>) {
    seq(|cards|, i requires 0 <= i < |cards| =>
      if cards[i].id == first || cards[i].id == second then cards[i].(isFlipped := false) else cards[i])
  }

  /** Which timeout a completed pair schedules: a match exactly when both cards show the same symbol. */
  function Judge(cards: seq<Card>, first: int, second: int, time: nat): (r: Resolution)
    ensures r.first == first && r.second == second
  {
    var a := FindCard(cards, first);
    var b := FindCard(cards, second);
    if a.Some? && b.Some? && a.value.symbol == b.value.symbol then MatchPair(first, second, time)
    else MismatchPair(first, second)
  }

  /** Why a click is ignored: no game, a won game, no such card, a card already up or matched, or two up. */
  predicate ClickIgnored(s: State, id: int) {
    || !s.gameStarted || s.gameWon
    || FindCard(s.cards, id).None?
    || FindCard(s.cards, id).value.isFlipped
    || FindCard(s.cards, id).value.isMatched
    || |s.flipped| >= 2
  }

  function Click(s: State, id: int): (r: State) {
    if !s.gameStarted || s.gameWon then s
    else match FindCard(s.cards, id)
      case None => s
      case Some(card) =>
        if card.isFlipped || card.isMatched || |s.flipped| >= 2 then s
        else
          var newCards := FlipUp(s.cards, id);
          var newFlipped := s.flipped + [id];
          if |newFlipped| == 2 then
            s.(cards := newCards, flipped := newFlipped, moves := s.moves + 1,
               pending := Some(Judge(newCards, newFlipped[0], newFlipped[1], s.time)))
          else
            s.(cards := newCards, flipped := newFlipped)
  }

  lemma ClickIgnoredIsNoOp(s: State, id: int)
    requires ClickIgnored(s, id)
    ensures Click(s, id) == s
  {
  }

  /**
   * A click that is not ignored turns up exactly the clicked card, appends
   * its id to the flipped list, and counts a move exactly when that list
   * reaches two; the pair is then scheduled as a match exactly when the two
   * symbols agree.
   */
  lemma ClickFlipsOne(s: State, id: int)
    requires !ClickIgnored(s, id)
    ensures var r := Click(s, id);
      && |r.cards| == |s.cards|
      && (forall i :: 0 <= i < |s.cards| ==>
            r.cards[i] == if s.cards[i].id == id then s.cards[i].(isFlipped := true) else s.cards[i])
      && r.flipped == s.flipped + [id]
      && r.moves == s.moves + (if |r.flipped| == 2 then 1 else 0)
      && (|r.flipped| == 2 ==> r.pending == Some(Judge(r.cards, r.flipped[0], r.flipped[1], s.time)))
      && (|r.flipped| == 2 ==> (r.pending.value.MatchPair? <==> SameSymbol(s.cards, r.flipped[0], r.flipped[1])))
      && r.matches == s.matches && r.time == s.time && r.gameWon == s.gameWon && r.bestTime == s.bestTime
  {
    var r := Click(s, id);
    if |r.flipped| == 2 {
      FindCardFlipUp(s.cards, id, r.flipped[0]);
      FindCardFlipUp(s.cards, id, r.flipped[1]);
    }
  }

  /** Both ids name a card, and the first cards with those ids show the same symbol. */
  predicate SameSymbol(cards: seq<Card>, first: int, second: int) {
    FindCard(cards, first).Some? && FindCard(cards, second).Some?
    && FindCard(cards, first).value.symbol == FindCard(cards, second).value.symbol
  }

  /** Turning a card up changes no id, so every lookup finds the same card, with its symbol. */
  lemma FindCardFlipUp(cards: seq<Card>, id: int, x: int)
    ensures FindCard(FlipUp(cards, id), x).Some? == FindCard(cards, x).Some?
    ensures FindCard(cards, x).Some? ==> FindCard(FlipUp(cards, id), x).value.symbol == FindCard(cards, x).value.symbol
  {
    var after := FlipUp(cards, id);
    assert |after| == |cards|;
    assert forall k :: 0 <= k < |cards| ==> after[k].id == cards[k].id && after[k].symbol == cards[k].symbol;
    if FindCard(cards, x).Some? {
      var j :| FirstWithId(cards, x, j) && cards[j] == FindCard(cards, x).value;
      assert FirstWithId(after, x, j);
      var i :| FirstWithId(after, x, i) && after[i] == FindCard(after, x).value;
      FirstUnique(after, x, i, j);
    }
  }

  /** Only one position holds the first card with a given id. */
  lemma FirstUnique(cards: seq<Card>, x: int, i: int, j: int)
    requires FirstWithId(cards, x, i) && FirstWithId(cards, x, j)
    ensures i == j
  {
  }

  /** Turning a card up keeps the ids and the matched cards, and keeps every face-up card up. */
  lemma FlipUpKeeps(cards: seq<Card>, id: int)
    ensures |FlipUp(cards, id)| == |cards|
    ensures DistinctIds(cards) ==> DistinctIds(FlipUp(cards, id))
    ensures Count(FlipUp(cards, id), IsMatched()) == Count(cards, IsMatched())
    ensures forall x :: FaceUp(cards, x) ==> FaceUp(FlipUp(cards, id), x)
  {
    var after := FlipUp(cards, id);
    CountPointwise(cards, after, IsMatched());
    forall x | FaceUp(cards, x) ensures FaceUp(after, x) {
      var i :| 0 <= i < |cards| && cards[i].id == x && cards[i].isFlipped && !cards[i].isMatched;
      assert after[i].id == x && after[i].isFlipped && !after[i].isMatched;
    }
  }

  /** The card that was clicked is face up afterwards. */
  lemma FlipUpShows(cards: seq<Card>, id: int, at: nat)
    requires at < |cards| && cards[at].id == id && !cards[at].isMatched
    ensures FaceUp(FlipUp(cards, id), id)
  {
    var after := FlipUp(cards, id);
    assert after[at].id == id && after[at].isFlipped && !after[at].isMatched;
  }

  /** The second card of a pair: a move is counted and the pair's timeout scheduled. */
  lemma SecondClickKeepsInv(s: State, id: int, at: nat)
    requires Inv(s) && |s.flipped| == 1 && s.gameStarted && !s.gameWon
    requires at < |s.cards| && s.cards[at].id == id && !s.cards[at].isFlipped && !s.cards[at].isMatched
    ensures Inv(s.(cards := FlipUp(s.cards, id), flipped := s.flipped + [id], moves := s.moves + 1,
                   pending := Some(Judge(FlipUp(s.cards, id), s.flipped[0], id, s.time))))
  {
    var cards := FlipUp(s.cards, id);
    var flipped := s.flipped + [id];
    FlipUpKeeps(s.cards, id);
    FlipUpShows(s.cards, id, at);
    var i :| 0 <= i < |s.cards| && s.cards[i].id == s.flipped[0] && s.cards[i].isFlipped && !s.cards[i].isMatched;
    assert i != at;
    assert flipped[0] == s.flipped[0] && flipped[1] == id;
    assert forall k :: 0 <= k < |flipped| ==> FaceUp(cards, flipped[k]);
  }

  /** The first card of a pair: it is turned up and listed, nothing else changes. */
  lemma FirstClickKeepsInv(s: State, id: int, at: nat)
    requires Inv(s) && |s.flipped| == 0
    requires at < |s.cards| && s.cards[at].id == id && !s.cards[at].isMatched
    ensures Inv(s.(cards := FlipUp(s.cards, id), flipped := s.flipped + [id]))
  {
    FlipUpKeeps(s.cards, id);
    FlipUpShows(s.cards, id, at);
  }

  lemma ClickKeepsInv(s: State, id: int)
    requires Inv(s)
    ensures Inv(Click(s, id))
  {
    if !ClickIgnored(s, id) {
      var card := FindCard(s.cards, id).value;
      var at :| FirstWithId(s.cards, id, at) && s.cards[at] == card;
      if |s.flipped| == 1 {
        SecondClickKeepsInv(s, id, at);
      } else {
        FirstClickKeepsInv(s, id, at);
      }
    }
  }

  // ---------------------------------------------------------------------
  // The timeouts
  // ---------------------------------------------------------------------

  /** The best time is replaced only by a strictly smaller one; none is infinitely slow. */
  predicate Faster(t: nat, best: Option<nat>) {
    best.None? || t < best.value
  }

  /** The scheduled timeout fires; nothing happens when none is pending. */
  function Resolve(s: State): (r: State) {
    match s.pending
    case None => s
    case Some(MatchPair(first, second, t)) =>
      var newMatches := s.matches + 1;
      var won := newMatches == PAIRS;
      s.(cards := MarkMatched(s.cards, first, second), flipped := [], matches := newMatches,
         gameWon := s.gameWon || won,
         bestTime := if won && Faster(t, s.bestTime) then Some(t) else s.bestTime,
         pending := None)
    case Some(MismatchPair(first, second)) =>
      s.(cards := FlipDown(s.cards, first, second), flipped := [], pending := None)
  }

  /**
   * Resolving a match marks exactly the two cards matched, empties the
   * flipped list and adds one match; the game is won when that makes 8, and
   * then the captured time becomes the best time if it is strictly smaller.
   */
  lemma ResolveMatch(s: State)
    requires s.pending.Some? && s.pending.value.MatchPair?
    ensures var r := Resolve(s); var p := s.pending.value;
      && |r.cards| == |s.cards|
      && (forall i :: 0 <= i < |s.cards| ==>
            r.cards[i] == if s.cards[i].id in {p.first, p.second} then s.cards[i].(isMatched := true) else s.cards[i])
      && r.flipped == [] && r.pending == None && r.matches == s.matches + 1
      && r.gameWon == (s.gameWon || s.matches + 1 == PAIRS)
      && r.bestTime == (if s.matches + 1 == PAIRS && Faster(p.time, s.bestTime) then Some(p.time) else s.bestTime)
      && r.moves == s.moves && r.time == s.time && r.gameStarted == s.gameStarted
  {
  }

  /** Resolving a mismatch turns exactly the two cards face down and empties the flipped list. */
  lemma ResolveMismatch(s: State)
    requires s.pending.Some? && s.pending.value.MismatchPair?
    ensures var r := Resolve(s); var p := s.pending.value;
      && |r.cards| == |s.cards|
      && (forall i :: 0 <= i < |s.cards| ==>
            r.cards[i] == if s.cards[i].id in {p.first, p.second} then s.cards[i].(isFlipped := false) else s.cards[i])
      && r == s.(cards := r.cards, flipped := [], pending := None)
  {
  }

  /** A match resolution turns two unmatched cards into matched ones: the matched count rises by 2. */
  lemma MarkMatchedCount(cards: seq<Card>, first: int, second: int)
    requires DistinctIds(cards) && first != second
    requires FaceUp(cards, first) && FaceUp(cards, second)
    ensures Count(MarkMatched(cards, first, second), IsMatched()) == Count(cards, IsMatched()) + 2
  {
    var after := MarkMatched(cards, first, second);
    var i :| 0 <= i < |cards| && cards[i].id == first && cards[i].isFlipped && !cards[i].isMatched;
    var j :| 0 <= j < |cards| && cards[j].id == second && cards[j].isFlipped && !cards[j].isMatched;
    var mid := cards[i := after[i]];
    CountChange(cards, mid, IsMatched(), i);
    forall k | 0 <= k < |mid| && k != j ensures IsMatched()(mid[k]) == IsMatched()(after[k]) {
      if k != i {
        assert cards[k].id != first && cards[k].id != second;
      }
    }
    CountChange(mid, after, IsMatched(), j);
  }

  lemma ResolveKeepsInv(s: State)
    requires Inv(s)
    ensures Inv(Resolve(s))
  {
    if s.pending.Some? {
      if s.pending.value.MatchPair? {
        ResolveMatchKeepsInv(s);
      } else {
        ResolveMismatchKeepsInv(s);
      }
    }
  }

  lemma ResolveMatchKeepsInv(s: State)
    requires Inv(s) && s.pending.Some? && s.pending.value.MatchPair?
    ensures Inv(Resolve(s))
  {
    var p := s.pending.value;
    var r := Resolve(s);
    MarkMatchedCount(s.cards, p.first, p.second);
    assert forall i :: 0 <= i < |r.cards| ==> r.cards[i].id == s.cards[i].id;
    assert DistinctIds(r.cards);
    assert 2 * r.matches == Count(r.cards, IsMatched());
  }

  lemma ResolveMismatchKeepsInv(s: State)
    requires Inv(s) && s.pending.Some? && s.pending.value.MismatchPair?
    ensures Inv(Resolve(s))
  {
    var r := Resolve(s);
    CountPointwise(s.cards, r.cards, IsMatched());
    assert forall i :: 0 <= i < |r.cards| ==> r.cards[i].id == s.cards[i].id;
    assert DistinctIds(r.cards);
  }

  /** Once won, the game stays won until a new deal, and 8 matches were made. */
  lemma WonMeansAllPairs(s: State)
    requires Inv(s) && s.gameWon
    ensures s.matches == PAIRS && Count(s.cards, IsMatched()) == DECK_SIZE
  {
  }

  // ---------------------------------------------------------------------
  // The clock
  // ---------------------------------------------------------------------

  /** One second of the timer: it counts only while a game runs and is not won. */
  function TimerTick(s: State): (r: State)
    ensures r.time == if s.gameStarted && !s.gameWon then s.time + 1 else s.time
    ensures r == s.(time := r.time)
  {
    if s.gameStarted && !s.gameWon then s.(time := s.time + 1) else s
  }

  lemma TimerKeepsInv(s: State)
    requires Inv(s)
    ensures Inv(TimerTick(s))
  {
  }

  /** `m:ss`: the minutes, a colon, and the seconds padded to two digits. */
  function FormatTime(seconds: nat): string {
    NatToString(seconds / 60) + ":" + PadStart2(NatToString(seconds % 60))
  }

  /** Reads `m:ss` back: minutes before the colon, exactly two digits of seconds after it. */
  function ParseTime(t: string): (r: Option<nat>) {
    if |t| >= 4 && t[|t| - 3] == ':' && AllDigits(t[..|t| - 3]) && AllDigits(t[|t| - 2..])
    then Some(60 * ParseDigits(t[..|t| - 3]) + ParseDigits(t[|t| - 2..]))
    else None
  }

  /** Minutes in digits, a colon, and two digits of seconds. */
  predicate ClockShape(t: string) {
    |t| >= 4 && t[|t| - 3] == ':' && AllDigits(t[..|t| - 3]) && AllDigits(t[|t| - 2..])
  }

  /** The seconds field: two digits, read back as the seconds. */
  lemma SecondsField(n: nat)
    requires n < 60
    ensures |PadStart2(NatToString(n))| == 2
    ensures AllDigits(PadStart2(NatToString(n)))
    ensures ParseDigits(PadStart2(NatToString(n))) == n
  {
    var secs := NatToString(n);
    var padded := PadStart2(secs);
    ParseNatToString(n);
    if |secs| == 1 {
      assert padded == ['0'] + secs;
      assert padded[..1] == ['0'];
    } else {
      assert padded == secs;
    }
  }

  /** Cutting `m:ss` at its last three characters. */
  lemma ClockFields(mins: string, secs: string)
    requires |secs| == 2
    ensures var t := mins + ":" + secs;
      |t| == |mins| + 3 && t[|t| - 3] == ':' && t[..|t| - 3] == mins && t[|t| - 2..] == secs
  {
  }

  /** The clock text has exactly two seconds digits worth less than 60, and reads back as the time. */
  lemma FormatTimeRoundTrip(seconds: nat)
    ensures ClockShape(FormatTime(seconds))
    ensures var t := FormatTime(seconds);
      && ParseDigits(t[|t| - 2..]) == seconds % 60 < 60
      && ParseDigits(t[..|t| - 3]) == seconds / 60
      && ParseTime(t) == Some(seconds)
  {
    var m, r := seconds / 60, seconds % 60;
    MinutesAndSeconds(seconds);
    assert 60 * m + r == seconds;
    ClockOf(m, r);
  }

  /** `m` minutes and `r` seconds written as a clock, and read back. */
  lemma ClockOf(m: nat, r: nat)
    requires r < 60
    ensures var t := NatToString(m) + ":" + PadStart2(NatToString(r));
      && ClockShape(t)
      && ParseDigits(t[|t| - 2..]) == r
      && ParseDigits(t[..|t| - 3]) == m
      && ParseTime(t) == Some(60 * m + r)
  {
    var mins := NatToString(m);
    var padded := PadStart2(NatToString(r));
    SecondsField(r);
    ParseNatToString(m);
    ClockText(mins, padded, m, r);
  }

  /** A run of digits, a colon and two digits: the clock's shape, read back as minutes and seconds. */
  lemma ClockText(mins: string, secs: string, m: nat, r: nat)
    requires |mins| > 0 && AllDigits(mins) && |secs| == 2 && AllDigits(secs)
    requires ParseDigits(mins) == m && ParseDigits(secs) == r
    ensures var t := mins + ":" + secs;
      && ClockShape(t)
      && ParseDigits(t[|t| - 2..]) == r
      && ParseDigits(t[..|t| - 3]) == m
      && ParseTime(t) == Some(60 * m + r)
  {
    var t := mins + ":" + secs;
    ClockFields(mins, secs);
    var a, b := t[..|t| - 3], t[|t| - 2..];
    assert a == mins && b == secs;
    assert AllDigits(a) && AllDigits(b);
    assert ParseDigits(a) == m && ParseDigits(b) == r;
  }

  lemma MinutesAndSeconds(seconds: nat)
    ensures 60 * (seconds / 60) + seconds % 60 == seconds
  {
  }

  /** One step of the in-place shuffle: swapping i and picks[i] leaves the remaining steps. */
  lemma FisherYatesStep(before: seq<Card>, after: seq<Card>, picks: seq<nat>, i: nat)
    requires 0 < i < |before| && i < |picks| && forall k :: 0 <= k < |picks| ==> picks[k] <= k
    requires after == Swap(before, i, picks[i])
    ensures FisherYates(after, picks, i) == FisherYates(before, picks, i + 1)
  {
  }

  /**
   * The deal of `initGame`: two cards per symbol pushed in order, then shuffled in place
   * from the last position down, position i swapped with the random index picks[i].
   */
  method Shuffle(picks: seq<nat>) returns (dealt: seq<Card>)
    requires ValidPicks(picks)
    ensures dealt == FisherYates(Deck(), picks, DECK_SIZE)
  {
    var gameCards: seq<Card> := [];
    for index := 0 to |SYMBOLS|
      invariant gameCards == Deck()[..2 * index]
    {
      DeckSplit(index);
      gameCards := gameCards + [Card(index * 2, SYMBOLS[index], false, false),
                                Card(index * 2 + 1, SYMBOLS[index], false, false)];
    }
    assert gameCards == Deck();
    var a := new Card[|gameCards|](k requires 0 <= k < |gameCards| => gameCards[k]);
    assert a[..] == Deck();
    var i := a.Length - 1;
    while i > 0
      invariant 0 <= i < a.Length
      invariant FisherYates(a[..], picks, i + 1) == FisherYates(Deck(), picks, DECK_SIZE)
    {
      var j := picks[i];
      ghost var before := a[..];
      a[i], a[j] := a[j], a[i];
      assert a[..] == Swap(before, i, j);
      FisherYatesStep(before, a[..], picks, i);
      i := i - 1;
    }
    dealt := a[..];
  }

  // ---------------------------------------------------------------------
  // The component
  // ---------------------------------------------------------------------

  class MemoryGame {
    var cards: seq<Card>
    var flippedCards: seq<int>
    var moves: nat
    var matches: nat
    var gameStarted: bool
    var gameWon: bool
    var time: nat
    /** Also the `memoryBestTime` entry of local storage, which is always written with it. */
    var bestTime: Option<nat>
    /** The timeout the last completed pair scheduled, if it has not fired yet. */
    var pending: Option<Resolution>

    function Snapshot(): State
      reads this
    {
      State(cards, flippedCards, moves, matches, gameStarted, gameWon, time, bestTime, pending)
    }

    ghost predicate Valid()
      reads this
    {
      Inv(Snapshot())
    }

    /** Mounting: the best time is read from storage, infinite when nothing is saved. */
    constructor (saved: Option<nat>)
      ensures Valid() && Snapshot() == Initial(saved)
    {
      cards := [];
      flippedCards := [];
      moves := 0;
      matches := 0;
      gameStarted := false;
      gameWon := false;
      time := 0;
      bestTime := saved;
      pending := None;
    }

    /** Sets every state variable at once, as the batched updates of one handler do. */
    method Commit(r: State)
      modifies this
      ensures Snapshot() == r
    {
      cards, flippedCards, moves, matches := r.cards, r.flipped, r.moves, r.matches;
      gameStarted, gameWon, time, bestTime, pending := r.gameStarted, r.gameWon, r.time, r.bestTime, r.pending;
    }

    /** `initGame`: a freshly shuffled deck and every counter back to zero. */
    method InitGame(picks: seq<nat>)
      requires Valid() && ValidPicks(picks)
      modifies this
      ensures Valid() && Snapshot() == Init(old(Snapshot()), picks)
    {
      var dealt := Shuffle(picks);
      InitKeepsInv(Snapshot(), picks);
      Commit(State(dealt, [], 0, 0, true, false, 0, bestTime, None));
    }

    /** `handleCardClick`: the state updates it requests take effect together, at the next render. */
    method HandleCardClick(id: int)
      requires Valid()
      modifies this
      ensures Snapshot() == Click(old(Snapshot()), id)
      ensures Valid()
    {
      ghost var s0 := Snapshot();
      if !gameStarted || gameWon {
        ClickIgnoredIsNoOp(s0, id);
        return;
      }
      var card := FindCard(cards, id);
      if card.None? || card.value.isFlipped || card.value.isMatched || |flippedCards| >= 2 {
        ClickIgnoredIsNoOp(s0, id);
        return;
      }
      var newCards := FlipUp(cards, id);
      var newFlipped := flippedCards + [id];
      var newMoves, newPending := moves, pending;
      if |newFlipped| == 2 {
        newMoves := moves + 1;
        var first, second := newFlipped[0], newFlipped[1];
        var firstCard := FindCard(newCards, first);
        var secondCard := FindCard(newCards, second);
        if firstCard.Some? && secondCard.Some? && firstCard.value.symbol == secondCard.value.symbol {
          newPending := Some(MatchPair(first, second, time));
        } else {
          newPending := Some(MismatchPair(first, second));
        }
        assert newPending == Some(Judge(newCards, newFlipped[0], newFlipped[1], time));
      }
      var next := State(newCards, newFlipped, newMoves, matches, gameStarted, gameWon, time, bestTime, newPending);
      assert next == Click(s0, id);
      ClickKeepsInv(s0, id);
      Commit(next);
    }

    /** The pending timeout fires; its updates, too, take effect together. */
    method FireTimeout()
      requires Valid()
      modifies this
      ensures Valid() && Snapshot() == Resolve(old(Snapshot()))
    {
      ResolveKeepsInv(Snapshot());
      match pending {
        case None =>
        case Some(MatchPair(first, second, t)) =>
          var newMatches := matches + 1;
          var won, best := gameWon, bestTime;
          if newMatches == |SYMBOLS| {
            won := true;
            if bestTime.None? || t < bestTime.value {
              best := Some(t);
            }
          }
          Commit(State(MarkMatched(cards, first, second), [], moves, newMatches, gameStarted, won, time, best, None));
        case Some(MismatchPair(first, second)) =>
          Commit(State(FlipDown(cards, first, second), [], moves, matches, gameStarted, gameWon, time, bestTime, None));
      }
    }

    /** One firing of the one-second interval. */
    method TickTimer()
      requires Valid()
      modifies this
      ensures Valid() && Snapshot() == TimerTick(old(Snapshot()))
    {
      if gameStarted && !gameWon {
        time := time + 1;
      }
    }

    /** The keydown handler; `close` tells whether it asked the host to close the game. */
    method HandleKeyPress(key: string, picks: seq<nat>) returns (close: bool)
      requires Valid() && ValidPicks(picks)
      modifies this
      ensures Valid() && Snapshot() == OnKey(old(Snapshot()), key, picks)
      ensures close <==> key == "Escape"
    {
      close := key == "Escape";
      if !close && (key == " " || key == "Enter") {
        if !gameStarted || gameWon {
          InitGame(picks);
        }
      }
    }
  }
}
