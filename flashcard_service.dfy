// The flashcard service of backend/app/services/flashcard_service.py over its document
// collection: the mastery update of a review, the partial update that sets only the
// fields present, and delete. The collection is a sequence of documents in natural
// order; a query by id and user matches the first such document, as find_one,
// find_one_and_update and delete_one do. Clock readings are parameters.

module FlashcardService {
  import opened Wrappers

  const MaxMastery: int := 5

  /** A stored flashcard (FlashcardInDB); times are opaque clock readings. */
  datatype Doc = Doc(
    id: string, userId: string, question: string, answer: string,
    category: Option<string>, difficulty: Option<string>,
    createdAt: int, updatedAt: int, timesReviewed: int, lastReviewed: Option<int>, mastery: int)

  /** FlashcardUpdate: every field may be left out. */
  datatype Patch = Patch(question: Option<string>, answer: Option<string>, category: Option<string>, difficulty: Option<string>)

  predicate Owns(d: Doc, id: string, userId: string) {
    d.id == id && d.userId == userId
  }

  /** The position of the first document with that id and user, or -1. */
  function FindDoc(docs: seq<Doc>, id: string, userId: string): (r: int)
    ensures -1 <= r < |docs|
    ensures r == -1 <==> forall k :: 0 <= k < |docs| ==> !Owns(docs[k], id, userId)
    ensures r >= 0 ==> Owns(docs[r], id, userId) && forall k :: 0 <= k < r ==> !Owns(docs[k], id, userId)
  {
    if |docs| == 0 then -1
    else if Owns(docs[0], id, userId) then 0
    else
      var j := FindDoc(docs[1..], id, userId);
      assert forall k :: 1 <= k < |docs| ==> docs[k] == docs[1..][k - 1];
      if j == -1 then -1 else j + 1
  }

  /** The mastery after a review: one up for a correct answer, at most 5; one down for a
      wrong one, at least 0. */
  function NewMastery(m: int, correct: bool): int {
    if correct then (if m + 1 < MaxMastery then m + 1 else MaxMastery)
    else (if m - 1 > 0 then m - 1 else 0)
  }

  /** A level on the 0..5 scale stays on it, moves by at most one, and moves exactly one
      step unless it is already at the end it moves towards. */
  lemma MasteryInRange(m: int, correct: bool)
    requires 0 <= m <= MaxMastery
    ensures var r := NewMastery(m, correct); 0 <= r <= MaxMastery
    ensures correct ==> NewMastery(m, correct) == if m == MaxMastery then m else m + 1
    ensures !correct ==> NewMastery(m, correct) == if m == 0 then m else m - 1
  {
  }

  /** `n` reviews with the same answer. */
  function Reviews(m: int, correct: bool, n: nat): int {
    if n == 0 then m else NewMastery(Reviews(m, correct, n - 1), correct)
  }

  /** From any level on the scale, `n` correct answers in a row reach min(5, m + n) and
      `n` wrong ones max(0, m - n). */
  lemma {:induction false} RepeatedReviews(m: int, n: nat)
    requires 0 <= m <= MaxMastery
    ensures Reviews(m, true, n) == if m + n < MaxMastery then m + n else MaxMastery
    ensures Reviews(m, false, n) == if m - n > 0 then m - n else 0
  {
    if n > 0 {
      RepeatedReviews(m, n - 1);
    }
  }

  /** The document after a review at time `now`. */
  function Reviewed(d: Doc, correct: bool, now: int): Doc {
    d.(lastReviewed := Some(now), mastery := NewMastery(d.mastery, correct), updatedAt := now,
       timesReviewed := d.timesReviewed + 1)
  }

  /** `$set` of the patch's present fields and `updated_at`. */
  function Patched(d: Doc, p: Patch, now: int): Doc {
    d.(question := if p.question.Some? then p.question.value else d.question,
       answer := if p.answer.Some? then p.answer.value else d.answer,
       category := if p.category.Some? then p.category else d.category,
       difficulty := if p.difficulty.Some? then p.difficulty else d.difficulty,
       updatedAt := now)
  }

  /** A patch changes only the fields it carries and the update time; applying it again
      changes nothing more, and an empty patch only touches the update time. */
  lemma PatchFacts(d: Doc, p: Patch, now: int)
    ensures var r := Patched(d, p, now);
      && r.id == d.id && r.userId == d.userId && r.createdAt == d.createdAt
      && r.timesReviewed == d.timesReviewed && r.lastReviewed == d.lastReviewed && r.mastery == d.mastery
      && (p.question.None? ==> r.question == d.question) && (p.question.Some? ==> r.question == p.question.value)
      && (p.answer.None? ==> r.answer == d.answer) && (p.answer.Some? ==> r.answer == p.answer.value)
      && (p.category.None? ==> r.category == d.category) && (p.category.Some? ==> r.category == p.category)
      && (p.difficulty.None? ==> r.difficulty == d.difficulty) && (p.difficulty.Some? ==> r.difficulty == p.difficulty)
      && r.updatedAt == now
    ensures Patched(Patched(d, p, now), p, now) == Patched(d, p, now)
    ensures p == Patch(None, None, None, None) ==> Patched(d, p, now) == d.(updatedAt := now)
  {
  }

  /** The field constraints of FlashcardBase, which FlashcardInDB inherits: a non-empty
      question and answer, and a difficulty that is absent or one of the three levels.
      Building a FlashcardInDB from a stored document that breaks them raises. */
  predicate ValidCard(d: Doc) {
    |d.question| >= 1 && |d.answer| >= 1
    && (d.difficulty.None? || d.difficulty.value in {"easy", "medium", "hard"})
  }

  /** The same constraints on the fields a patch carries. */
  predicate ValidPatch(p: Patch) {
    (p.question.None? || |p.question.value| >= 1) && (p.answer.None? || |p.answer.value| >= 1)
    && (p.difficulty.None? || p.difficulty.value in {"easy", "medium", "hard"})
  }

  /** What a service call gives back: no such card (None), the card, or the validation
      error raised when the document read back breaks the field constraints. */
  datatype Reply = Missing | Card(doc: Doc) | ValidationError

  /** On a readable card, the patched card is readable exactly when the patch meets the
      field constraints; FlashcardUpdate checks none of them. */
  lemma PatchedValidIff(d: Doc, p: Patch, now: int)
    requires ValidCard(d)
    ensures ValidCard(Patched(d, p, now)) <==> ValidPatch(p)
  {
    var r := Patched(d, p, now);
    if ValidCard(r) {
      assert p.question.Some? ==> r.question == p.question.value;
      assert p.answer.Some? ==> r.answer == p.answer.value;
      assert p.difficulty.Some? ==> r.difficulty == p.difficulty;
    }
  }

  /** An empty question or an unknown difficulty is accepted by the update model and
      leaves a card that can no longer be read. */
  lemma InvalidPatchUnreadable(d: Doc, now: int)
    requires ValidCard(d)
    ensures !ValidPatch(Patch(Some(""), None, None, None))
    ensures !ValidCard(Patched(d, Patch(Some(""), None, None, None), now))
    ensures !ValidCard(Patched(d, Patch(None, None, None, Some("extreme")), now))
  {
    PatchedValidIff(d, Patch(Some(""), None, None, None), now);
    PatchedValidIff(d, Patch(None, None, None, Some("extreme")), now);
    assert !ValidPatch(Patch(None, None, None, Some("extreme")));
  }

  /** The `flashcards` collection. */
  class FlashcardCollection {
    var docs: seq<Doc>

    /** Every mastery level is on the 0..5 scale. */
    ghost predicate Valid()
      reads this
    {
      forall k :: 0 <= k < |docs| ==> 0 <= docs[k].mastery <= MaxMastery
    }

    constructor (docs: seq<Doc>)
      requires forall k :: 0 <= k < |docs| ==> 0 <= docs[k].mastery <= MaxMastery
      ensures Valid() && this.docs == docs
    {
      this.docs := docs;
    }

    /** Every stored card can be read back as a FlashcardInDB. */
    ghost predicate Readable()
      reads this
    {
      forall k :: 0 <= k < |docs| ==> ValidCard(docs[k])
    }

    /** review_flashcard: Missing when the user has no card with that id; the validation
        error, with nothing changed, when the stored card cannot be read (get_flashcard_by_id
        raises); otherwise the card's mastery moves, its review count goes up by one and
        the updated card is returned. */
    method ReviewFlashcard(id: string, userId: string, correct: bool, now: int) returns (r: Reply)
      requires Valid()
      modifies this
      ensures Valid()
      ensures var i := FindDoc(old(docs), id, userId);
        && (i == -1 ==> r == Missing && docs == old(docs))
        && (i >= 0 && !ValidCard(old(docs)[i]) ==> r == ValidationError && docs == old(docs))
        && (i >= 0 && ValidCard(old(docs)[i]) ==>
              r == Card(Reviewed(old(docs)[i], correct, now)) && docs == old(docs)[i := r.doc])
      ensures r.Card? ==> r.doc.timesReviewed == old(docs)[FindDoc(old(docs), id, userId)].timesReviewed + 1
      ensures old(Readable()) ==> Readable()
    {
      var i := FindDoc(docs, id, userId);
      if i == -1 {
        return Missing;
      }
      var card := docs[i];
      if !ValidCard(card) {
        return ValidationError;
      }
      var newMastery := card.mastery;
      if correct {
        newMastery := if card.mastery + 1 < MaxMastery then card.mastery + 1 else MaxMastery;
      } else {
        newMastery := if card.mastery - 1 > 0 then card.mastery - 1 else 0;
      }
      MasteryInRange(card.mastery, correct);
      var updated := card.(lastReviewed := Some(now), mastery := newMastery, updatedAt := now,
                           timesReviewed := card.timesReviewed + 1);
      docs := docs[i := updated];
      r := Card(updated);
    }

    /** update_flashcard as written: Missing (nothing changed) when the user has no card
        with that id; otherwise the patch is written whatever it holds, and the patched
        card is returned, or the validation error when it breaks the field constraints;
        the write stays either way. */
    method UpdateFlashcard(id: string, userId: string, p: Patch, now: int) returns (r: Reply)
      requires Valid()
      modifies this
      ensures Valid()
      ensures var i := FindDoc(old(docs), id, userId);
        && (i == -1 ==> r == Missing && docs == old(docs))
        && (i >= 0 ==> docs == old(docs)[i := Patched(old(docs)[i], p, now)])
        && (i >= 0 && ValidCard(docs[i]) ==> r == Card(docs[i]))
        && (i >= 0 && !ValidCard(docs[i]) ==> r == ValidationError)
    {
      var i := FindDoc(docs, id, userId);
      if i == -1 {
        return Missing;
      }
      var updated := Patched(docs[i], p, now);
      docs := docs[i := updated];
      if ValidCard(updated) {
        r := Card(updated);
      } else {
        r := ValidationError;
      }
    }

    /** update_flashcard as intended: a patch that breaks the field constraints is
        refused before anything is written, so every card stays readable. */
    method UpdateFlashcardChecked(id: string, userId: string, p: Patch, now: int) returns (r: Reply)
      requires Valid()
      modifies this
      ensures Valid()
      ensures !ValidPatch(p) ==> r == ValidationError && docs == old(docs)
      ensures ValidPatch(p) ==> var i := FindDoc(old(docs), id, userId);
        && (i == -1 ==> r == Missing && docs == old(docs))
        && (i >= 0 ==> docs == old(docs)[i := Patched(old(docs)[i], p, now)] && r == Card(docs[i]))
      ensures old(Readable()) ==> Readable()
    {
      if !ValidPatch(p) {
        return ValidationError;
      }
      var i := FindDoc(docs, id, userId);
      if i == -1 {
        return Missing;
      }
      var updated := Patched(docs[i], p, now);
      if Readable() {
        PatchedValidIff(docs[i], p, now);
      }
      docs := docs[i := updated];
      r := Card(updated);
    }

    /** delete_flashcard: true exactly when the user had a card with that id, which is
        then gone; every other card stays, in order. */
    method DeleteFlashcard(id: string, userId: string) returns (deleted: bool)
      requires Valid()
      modifies this
      ensures Valid()
      ensures deleted <==> exists k :: 0 <= k < |old(docs)| && Owns(old(docs)[k], id, userId)
      ensures var i := FindDoc(old(docs), id, userId);
        && (i == -1 ==> docs == old(docs))
        && (i >= 0 ==> docs == old(docs)[..i] + old(docs)[i + 1..])
      ensures old(Readable()) ==> Readable()
    {
      var i := FindDoc(docs, id, userId);
      if i == -1 {
        return false;
      }
      docs := docs[..i] + docs[i + 1..];
      deleted := true;
    }
  }

  /** As written, one update with an empty question is stored, answered with the
      validation error, and leaves a card that every later review fails to read. */
  method InvalidUpdateBreaksReview(d: Doc, now: int) returns (updated: Reply, reviewed: Reply)
    requires ValidCard(d) && 0 <= d.mastery <= MaxMastery
    ensures updated == ValidationError && reviewed == ValidationError
  {
    var c := new FlashcardCollection([d]);
    InvalidPatchUnreadable(d, now);
    updated := c.UpdateFlashcard(d.id, d.userId, Patch(Some(""), None, None, None), now);
    reviewed := c.ReviewFlashcard(d.id, d.userId, true, now);
  }
}
