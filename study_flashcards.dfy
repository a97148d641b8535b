// Study mode of frontend/src/pages/Flashcards.jsx: the cards fetched from the API,
// stepping through them by position after each review, and the end of study mode on
// the last card. The API's replies are parameters.

module StudyFlashcards {
  import opened Wrappers

  /** A card as the API returns it (the fields study mode uses). */
  datatype Flashcard = Flashcard(id: string, question: string, answer: string)

  /** `cards.findIndex(c => c.id === id)`: the first position holding that id, or -1. */
  function FindIndex(cards: seq<Flashcard>, id: string): (r: int)
    ensures -1 <= r < |cards|
    ensures r == -1 <==> forall k :: 0 <= k < |cards| ==> cards[k].id != id
    ensures r >= 0 ==> cards[r].id == id && forall k :: 0 <= k < r ==> cards[k].id != id
  {
    if |cards| == 0 then -1
    else if cards[0].id == id then 0
    else
      var j := FindIndex(cards[1..], id);
      assert forall k :: 1 <= k < |cards| ==> cards[k] == cards[1..][k - 1];
      if j == -1 then -1 else j + 1
  }

  predicate DistinctIds(cards: seq<Flashcard>) {
    forall i, j :: 0 <= i < j < |cards| ==> cards[i].id != cards[j].id
  }

  /** The card after `current` once a review is recorded: the one following the first
      card with its id, the first card when no card has its id any more, and none (study
      mode ends) after the last card. */
  function NextCard(cards: seq<Flashcard>, current: Flashcard): Option<Flashcard> {
    var i := FindIndex(cards, current.id);
    if i < |cards| - 1 then Some(cards[i + 1]) else None
  }

  /** With distinct ids, reviewing card i moves to card i + 1, and reviewing the last card
      ends study mode: a study run visits the cards in list order. */
  lemma NextCardInOrder(cards: seq<Flashcard>, i: nat)
    requires DistinctIds(cards) && i < |cards|
    ensures i < |cards| - 1 ==> NextCard(cards, cards[i]) == Some(cards[i + 1])
    ensures i == |cards| - 1 ==> NextCard(cards, cards[i]).None?
  {
  }

  /** A card that has disappeared from the list (say, deleted elsewhere before a refetch)
      sends the next review back to the first card. */
  lemma NextCardWhenGone(cards: seq<Flashcard>, current: Flashcard)
    requires |cards| >= 1 && forall k :: 0 <= k < |cards| ==> cards[k].id != current.id
    ensures NextCard(cards, current) == Some(cards[0])
  {
  }

  /** The page's state. */
  class StudyView {
    var flashcards: seq<Flashcard>
    var loading: bool
    var studyMode: bool
    var currentCard: Option<Flashcard>
    var flipped: bool

    constructor ()
      ensures flashcards == [] && loading && !studyMode && currentCard.None? && !flipped
    {
      flashcards, loading, studyMode, currentCard, flipped := [], true, false, None, false;
    }

    /** fetchFlashcards finishing: the list is replaced by the reply when there is one, and
        loading ends either way. */
    method OnFetched(reply: Option<seq<Flashcard>>)
      modifies this
      ensures flashcards == if reply.Some? then reply.value else old(flashcards)
      ensures !loading
      ensures studyMode == old(studyMode) && currentCard == old(currentCard) && flipped == old(flipped)
    {
      if reply.Some? {
        flashcards := reply.value;
      }
      loading := false;
    }

    /** startStudy: nothing for an empty list; otherwise the first card, unflipped. */
    method StartStudy()
      modifies this
      ensures flashcards == old(flashcards) && loading == old(loading)
      ensures |flashcards| == 0 ==>
        studyMode == old(studyMode) && currentCard == old(currentCard) && flipped == old(flipped)
      ensures |flashcards| > 0 ==> studyMode && currentCard == Some(flashcards[0]) && !flipped
    {
      if |flashcards| > 0 {
        currentCard := Some(flashcards[0]);
        studyMode := true;
        flipped := false;
      }
    }

    /** A click on the card. */
    method Flip()
      modifies this
      ensures flipped == !old(flipped)
      ensures flashcards == old(flashcards) && loading == old(loading)
      ensures studyMode == old(studyMode) && currentCard == old(currentCard)
    {
      flipped := !flipped;
    }

    /** handleReview: without a current card nothing happens. Otherwise the review of that
        card is sent (`request`); when the API accepts it (`apiOk`) the next card by
        position becomes current, or after the last card study mode ends and the list is
        fetched again (`refetch`); when it fails nothing changes. */
    method HandleReview(correct: bool, apiOk: bool) returns (request: Option<(string, bool)>, refetch: bool)
      modifies this
      ensures old(currentCard).None? ==> request.None? && !refetch
      ensures old(currentCard).Some? ==> request == Some((old(currentCard).value.id, correct))
      ensures old(currentCard).Some? && apiOk ==>
        var next := NextCard(flashcards, old(currentCard).value);
        && (next.Some? ==> currentCard == next && !flipped && studyMode == old(studyMode) && !refetch)
        && (next.None? ==> !studyMode && refetch && currentCard == old(currentCard) && flipped == old(flipped))
      ensures old(currentCard).None? || !apiOk ==>
        studyMode == old(studyMode) && currentCard == old(currentCard) && flipped == old(flipped) && !refetch
      ensures flashcards == old(flashcards) && loading == old(loading)
    {
      request, refetch := None, false;
      if currentCard.None? {
        return;
      }
      var card := currentCard.value;
      request := Some((card.id, correct));
      if !apiOk {
        return;
      }
      var currentIndex := FindIndex(flashcards, card.id);
      if currentIndex < |flashcards| - 1 {
        currentCard := Some(flashcards[currentIndex + 1]);
        flipped := false;
      } else {
        studyMode := false;
        refetch := true;
      }
    }
  }
}
