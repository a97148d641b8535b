// The built-in flashcard deck of src/pages/Flashcards.jsx: wrap-around navigation,
// the flip toggle, the Fisher–Yates shuffle of a copy of the deck and the reset to the
// initial deck.

module DeckFlashcards {

  datatype Card = Card(q: string, a: string)

  /** The deck the page starts with and resets to. */
  const InitialDeck: seq<Card> := [
    Card("What is the Study Companion App?", "A web application designed to help students learn efficiently using AI-powered tools."),
    Card("Which frontend library powers the app?", "React."),
    Card("What is Vite used for in this project?", "Vite is the build tool and dev server for fast development and hot module replacement."),
    Card("How does the Pomodoro feature help users?", "It enables focused study sessions with timed work and break intervals."),
    Card("What is the purpose of the Notes feature?", "To let users take, format, and download study notes."),
    Card("How does the Flashcards feature work?", "It presents questions and answers for self-testing, with shuffle and progress tracking."),
    Card("How does the app use theme.css?", "For color schemes and theming."),
    Card("What is the use of apple-theme.css?", "Provides an Apple-inspired theme option.")
  ]

  /** `(i + 1) % n`. */
  function NextIndex(i: nat, n: nat): (r: nat)
    requires n > 0
    ensures r < n
    ensures i + 1 < n ==> r == i + 1
  {
    (i + 1) % n
  }

  /** `(i - 1 + n) % n`. */
  function PrevIndex(i: nat, n: nat): (r: nat)
    requires n > 0 && i < n
    ensures r < n
    ensures i > 0 ==> r == i - 1
    ensures i == 0 ==> r == n - 1
  {
    (i - 1 + n) % n
  }

  /** Next then Prev, or Prev then Next, returns to the same card. */
  lemma NextPrevInverse(i: nat, n: nat)
    requires 0 < n && i < n
    ensures PrevIndex(NextIndex(i, n), n) == i
    ensures NextIndex(PrevIndex(i, n), n) == i
  {
    if i + 1 == n {
      assert NextIndex(i, n) == 0;
    }
    if i == 0 {
      assert NextIndex(n - 1, n) == 0;
    }
  }

  /** `[s[i], s[j]] = [s[j], s[i]]`. */
  function Swap<T>(s: seq<T>, i: nat, j: nat): (r: seq<T>)
    requires i < |s| && j < |s|
    ensures |r| == |s| && r[i] == s[j] && r[j] == s[i]
    ensures forall k :: 0 <= k < |s| && k != i && k != j ==> r[k] == s[k]
  {
    s[i := s[j]][j := s[i]]
  }

  lemma SwapPermutes<T>(s: seq<T>, i: nat, j: nat)
    requires i < |s| && j < |s|
    ensures multiset(Swap(s, i, j)) == multiset(s)
  {
    if i != j {
      var t := s[i := s[j]];
      assert multiset(t) == multiset(s) - multiset{s[i]} + multiset{s[j]};
      assert multiset(t[j := s[i]]) == multiset(t) - multiset{t[j]} + multiset{s[i]};
    }
  }

  /** The random draws are valid: `choose[i]`, the `j` drawn when the loop is at `i`, is
      `Math.floor(Math.random() * (i + 1))`, so it lies in [0, i]. */
  predicate Draws(choose: seq<nat>, n: nat) {
    |choose| == n && forall i :: 0 <= i < n ==> choose[i] <= i
  }

  /** The swaps of the shuffle loop for i = top, top - 1, ..., 1. */
  function ShuffleDown<T>(s: seq<T>, choose: seq<nat>, top: int): seq<T>
    requires Draws(choose, |s|) && top < |s|
    decreases top
  {
    if top <= 0 then s else ShuffleDown(Swap(s, top, choose[top]), choose, top - 1)
  }

  /** Whatever the draws, the shuffle only reorders the cards. */
  lemma {:induction false} ShufflePermutes<T>(s: seq<T>, choose: seq<nat>, top: int)
    requires Draws(choose, |s|) && top < |s|
    ensures |ShuffleDown(s, choose, top)| == |s|
    ensures multiset(ShuffleDown(s, choose, top)) == multiset(s)
    decreases top
  {
    if top > 0 {
      var t := Swap(s, top, choose[top]);
      SwapPermutes(s, top, choose[top]);
      ShufflePermutes(t, choose, top - 1);
      assert ShuffleDown(s, choose, top) == ShuffleDown(t, choose, top - 1);
    }
  }

  /** The shuffle loop: for i from the last position down to 1, swap positions i and
      `choose[i]` of the array. */
  method ShuffleInPlace<T>(arr: array<T>, choose: seq<nat>)
    requires Draws(choose, arr.Length)
    modifies arr
    ensures arr[..] == ShuffleDown(old(arr[..]), choose, arr.Length - 1)
    ensures multiset(arr[..]) == multiset(old(arr[..]))
  {
    var i := arr.Length - 1;
    while i > 0
      invariant 0 <= i < arr.Length || (arr.Length == 0 && i == -1)
      invariant ShuffleDown(arr[..], choose, i) == ShuffleDown(old(arr[..]), choose, arr.Length - 1)
    {
      var j := choose[i];
      ghost var before := arr[..];
      arr[i], arr[j] := arr[j], arr[i];
      assert arr[..] == Swap(before, i, j);
      i := i - 1;
    }
    assert ShuffleDown(arr[..], choose, i) == arr[..];
    ShufflePermutes(old(arr[..]), choose, arr.Length - 1);
  }

  /** The page's state; `initial` is the deck it mounts with (InitialDeck on the page). */
  class Deck {
    const initial: seq<Card>
    var cards: seq<Card>
    var idx: nat
    var flipped: bool
    var shuffled: bool

    /** The deck is always some order of the initial cards, and idx is on a card. */
    ghost predicate Valid()
      reads this
    {
      multiset(cards) == multiset(initial) && |cards| == |initial| && idx < |cards|
    }

    constructor (initial: seq<Card>)
      requires |initial| > 0
      ensures Valid() && this.initial == initial
      ensures cards == initial && idx == 0 && !flipped && !shuffled
    {
      this.initial := initial;
      cards, idx, flipped, shuffled := initial, 0, false, false;
    }

    /** The card on show. */
    function Current(): Card
      requires Valid()
      reads this
    {
      cards[idx]
    }

    method Next()
      requires Valid()
      modifies this
      ensures Valid()
      ensures idx == NextIndex(old(idx), |cards|) && !flipped
      ensures cards == old(cards) && shuffled == old(shuffled)
    {
      flipped := false;
      idx := (idx + 1) % |cards|;
    }

    method Prev()
      requires Valid()
      modifies this
      ensures Valid()
      ensures idx == PrevIndex(old(idx), |cards|) && !flipped
      ensures cards == old(cards) && shuffled == old(shuffled)
    {
      flipped := false;
      idx := (idx - 1 + |cards|) % |cards|;
    }

    /** Space or a click on the card. */
    method Flip()
      requires Valid()
      modifies this
      ensures Valid()
      ensures flipped == !old(flipped)
      ensures cards == old(cards) && idx == old(idx) && shuffled == old(shuffled)
    {
      flipped := !flipped;
    }

    /** shuffle: Fisher–Yates over a copy of the deck with the draws `choose`, then back
        to the first card, unflipped and marked shuffled. */
    method Shuffle(choose: seq<nat>)
      requires Valid() && Draws(choose, |cards|)
      modifies this
      ensures Valid()
      ensures cards == ShuffleDown(old(cards), choose, |old(cards)| - 1)
      ensures idx == 0 && !flipped && shuffled
    {
      var deck := cards;
      var arr := new Card[|deck|](k requires 0 <= k < |deck| => deck[k]);
      assert arr[..] == deck;
      ShuffleInPlace(arr, choose);
      cards := arr[..];
      idx, flipped, shuffled := 0, false, true;
    }

    method Reset()
      requires Valid()
      modifies this
      ensures Valid()
      ensures cards == initial && idx == 0 && !flipped && !shuffled
    {
      cards, idx, flipped, shuffled := initial, 0, false, false;
    }
  }

  /** Mounting the page: the eight built-in cards, the first one showing. */
  method Mount() returns (d: Deck)
    ensures fresh(d) && d.Valid() && d.initial == InitialDeck && d.cards == InitialDeck
    ensures d.idx == 0 && !d.flipped && !d.shuffled
  {
    assert |InitialDeck| == 8;
    d := new Deck(InitialDeck);
  }
}
