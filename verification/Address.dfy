/** Address correction: the spoken pickup address is replaced by the closest
    address the address index lists for the pickup postcode, when one is close
    enough. The index lookup and the similarity score are collaborators and
    enter as parameters. */
module Address {
  import opened Wrappers
  import opened Text
  import opened Booking

  /** Similarity of a candidate address (first) to the spoken address (second),
      in [0, 1]: the ratio `difflib.SequenceMatcher` computes with the candidate
      as its first sequence. */
  type Ratio = (string, string) -> real

  /** The address index: the candidate addresses it lists for a postcode, `[]`
      when the lookup fails or lists nothing. */
  type AddressIndex = string -> seq<string>

  /** The least score a candidate needs to be accepted. */
  const Cutoff: real := 0.6

  predicate Eligible(x: string, word: string, ratio: Ratio) {
    ratio(x, word) >= Cutoff
  }

  /** `x` ranks strictly above `y`: the pairs (score, candidate) are compared,
      the higher score first and, on equal scores, the larger string. */
  predicate Outranks(x: string, y: string, word: string, ratio: Ratio) {
    ratio(x, word) > ratio(y, word) || (ratio(x, word) == ratio(y, word) && StrLess(y, x))
  }

  /** Ranking is a strict order. */
  lemma OutranksStrictOrder(word: string, ratio: Ratio)
    ensures forall x :: !Outranks(x, x, word, ratio)
    ensures forall x, y, z :: Outranks(x, y, word, ratio) && Outranks(y, z, word, ratio) ==>
      Outranks(x, z, word, ratio)
  {
    forall x ensures !Outranks(x, x, word, ratio) {
      StrLessIrreflexive(x);
    }
    forall x, y, z | Outranks(x, y, word, ratio) && Outranks(y, z, word, ratio)
      ensures Outranks(x, z, word, ratio)
    {
      if ratio(x, word) == ratio(y, word) == ratio(z, word) {
        StrLessTransitive(z, y, x);
      }
    }
  }

  /** `m` is the accepted candidate: listed, at or above the cutoff, and no
      listed candidate at or above the cutoff ranks above it. */
  predicate IsBestMatch(m: string, word: string, cs: seq<string>, ratio: Ratio) {
    && m in cs
    && Eligible(m, word, ratio)
    && forall i :: 0 <= i < |cs| && Eligible(cs[i], word, ratio) ==> !Outranks(cs[i], m, word, ratio)
  }

  /** `difflib.get_close_matches(word, cs, n=1, cutoff=0.6)`, as an option: the
      best candidate at or above the cutoff, if any (see `CloseMatchSelects`). */
  function CloseMatch(word: string, cs: seq<string>, ratio: Ratio): Option<string> {
    if cs == [] then None
    else
      var rest := CloseMatch(word, cs[1..], ratio);
      if !Eligible(cs[0], word, ratio) then rest
      else if rest.Some? && !Outranks(cs[0], rest.value, word, ratio) then rest
      else Some(cs[0])
  }

  /** The selection rule: none exactly when no candidate reaches the cutoff,
      and otherwise a candidate that is the best match. */
  lemma {:induction false} CloseMatchSelects(word: string, cs: seq<string>, ratio: Ratio)
    ensures CloseMatch(word, cs, ratio).None? <==> forall i :: 0 <= i < |cs| ==> !Eligible(cs[i], word, ratio)
    ensures CloseMatch(word, cs, ratio).Some? ==> IsBestMatch(CloseMatch(word, cs, ratio).value, word, cs, ratio)
  {
    if cs != [] {
      CloseMatchSelects(word, cs[1..], ratio);
      assert forall i :: 1 <= i < |cs| ==> cs[i] == cs[1..][i - 1];
      OutranksStrictOrder(word, ratio);
    }
  }

  /** At most one candidate is the best match. */
  lemma BestMatchUnique(m1: string, m2: string, word: string, cs: seq<string>, ratio: Ratio)
    requires IsBestMatch(m1, word, cs, ratio) && IsBestMatch(m2, word, cs, ratio)
    ensures m1 == m2
  {
    if m1 != m2 {
      var i1 :| 0 <= i1 < |cs| && cs[i1] == m1;
      var i2 :| 0 <= i2 < |cs| && cs[i2] == m2;
      StrLessTotal(m1, m2);
    }
  }

  /** `correct_address`: the best candidate among those listed, else the spoken
      address unchanged. */
  function CorrectAddress(spoken: string, candidates: seq<string>, ratio: Ratio): string {
    match CloseMatch(spoken, candidates, ratio)
    case Some(m) => m
    case None => spoken
  }

  /** The spoken address comes back when no candidate reaches the cutoff, and
      the best match otherwise. */
  lemma CorrectAddressSpec(spoken: string, candidates: seq<string>, ratio: Ratio)
    ensures (forall i :: 0 <= i < |candidates| ==> !Eligible(candidates[i], spoken, ratio)) ==>
      CorrectAddress(spoken, candidates, ratio) == spoken
    ensures (exists i :: 0 <= i < |candidates| && Eligible(candidates[i], spoken, ratio)) ==>
      IsBestMatch(CorrectAddress(spoken, candidates, ratio), spoken, candidates, ratio)
  {
    CloseMatchSelects(spoken, candidates, ratio);
  }

  /** The result is the spoken address or one of the listed candidates; an empty
      list (a failed lookup) leaves the spoken address. */
  lemma CorrectAddressChoices(spoken: string, candidates: seq<string>, ratio: Ratio)
    ensures CorrectAddress(spoken, candidates, ratio) == spoken
         || CorrectAddress(spoken, candidates, ratio) in candidates
    ensures candidates == [] ==> CorrectAddress(spoken, candidates, ratio) == spoken
  {
    CloseMatchSelects(spoken, candidates, ratio);
  }

  /** What the similarity score of `difflib` satisfies (for strings too short
      for its automatic junk heuristic): it lies in [0, 1], is 1 exactly for
      equal strings, and is 0 between the empty string and any other. */
  ghost predicate SimilarityLike(ratio: Ratio) {
    && (forall a, b :: 0.0 <= ratio(a, b) <= 1.0)
    && (forall a, b :: ratio(a, b) == 1.0 <==> a == b)
    && (forall w :: w != "" ==> ratio("", w) == 0.0)
  }

  /** Correcting an already corrected address changes nothing, the index's
      answer being the same. */
  lemma CorrectAddressIdempotent(spoken: string, candidates: seq<string>, ratio: Ratio)
    requires SimilarityLike(ratio)
    ensures CorrectAddress(CorrectAddress(spoken, candidates, ratio), candidates, ratio)
         == CorrectAddress(spoken, candidates, ratio)
  {
    var r1 := CorrectAddress(spoken, candidates, ratio);
    CorrectAddressSpec(spoken, candidates, ratio);
    if exists i :: 0 <= i < |candidates| && Eligible(candidates[i], spoken, ratio) {
      assert IsBestMatch(r1, spoken, candidates, ratio);
      var i1 :| 0 <= i1 < |candidates| && candidates[i1] == r1;
      assert ratio(r1, r1) == 1.0;
      assert Eligible(candidates[i1], r1, ratio);
      var r2 := CorrectAddress(r1, candidates, ratio);
      CorrectAddressSpec(r1, candidates, ratio);
      assert IsBestMatch(r2, r1, candidates, ratio);
      assert !Outranks(candidates[i1], r2, r1, ratio);
      assert ratio(r2, r1) == 1.0;
    }
  }

  /** A non-empty spoken address is never corrected to `""`. */
  lemma CorrectAddressNonEmpty(spoken: string, candidates: seq<string>, ratio: Ratio)
    requires SimilarityLike(ratio) && spoken != ""
    ensures CorrectAddress(spoken, candidates, ratio) != ""
  {
    var r := CorrectAddress(spoken, candidates, ratio);
    CorrectAddressSpec(spoken, candidates, ratio);
    if r != spoken {
      assert IsBestMatch(r, spoken, candidates, ratio);
      assert ratio(r, spoken) >= Cutoff;
    }
  }

  /** The guard of the correction pass: both `pickup` and `pickup_postcode` are non-empty. */
  predicate NeedsCorrection(book: Booking) {
    "pickup" in book && "pickup_postcode" in book && book["pickup"] != "" && book["pickup_postcode"] != ""
  }

  /** The correction pass of a turn: when the guard holds, `pickup` becomes the
      corrected address for the candidates the index lists for `pickup_postcode`.
      Only `pickup` can change, and only to its old value or a listed candidate. */
  function CorrectPickup(book: Booking, index: AddressIndex, ratio: Ratio): (r: Booking)
    ensures r.Keys == book.Keys
    ensures forall k :: k in book && k != "pickup" ==> r[k] == book[k]
    ensures !NeedsCorrection(book) ==> r == book
    ensures NeedsCorrection(book) ==>
      r["pickup"] == book["pickup"] || r["pickup"] in index(book["pickup_postcode"])
    ensures NeedsCorrection(book) && index(book["pickup_postcode"]) == [] ==> r == book
  {
    if NeedsCorrection(book) then
      var spoken := book["pickup"];
      var candidates := index(book["pickup_postcode"]);
      CorrectAddressChoices(spoken, candidates, ratio);
      book["pickup" := CorrectAddress(spoken, candidates, ratio)]
    else book
  }

  /** The correction pass is idempotent: running it on every later turn with
      the same postcode and the same index answer changes nothing more. */
  lemma CorrectPickupIdempotent(book: Booking, index: AddressIndex, ratio: Ratio)
    requires SimilarityLike(ratio)
    ensures CorrectPickup(CorrectPickup(book, index, ratio), index, ratio) == CorrectPickup(book, index, ratio)
  {
    if NeedsCorrection(book) {
      var spoken := book["pickup"];
      var candidates := index(book["pickup_postcode"]);
      CorrectAddressIdempotent(spoken, candidates, ratio);
      CorrectAddressNonEmpty(spoken, candidates, ratio);
    }
  }

  /** Monotonic fill holds for a whole turn, merge then correction: a field that
      was non-empty is non-empty afterwards. */
  lemma TurnKeepsFilled(book: Booking, values: map<string, string>, index: AddressIndex, ratio: Ratio, k: string)
    requires SimilarityLike(ratio)
    requires k in book && book[k] != ""
    ensures CorrectPickup(Merge(book, values), index, ratio)[k] != ""
  {
    var merged := Merge(book, values);
    MergeFill(book, values);
    if k == "pickup" && NeedsCorrection(merged) {
      CorrectAddressNonEmpty(merged["pickup"], index(merged["pickup_postcode"]), ratio);
    }
  }

  /** A postcode that arrives after the pickup corrects it on that turn: when
      the index lists one candidate close enough, the pickup becomes that
      candidate and nothing else changes. */
  lemma LatePostcodeCorrectsPickup(book: Booking, index: AddressIndex, ratio: Ratio, c: string)
    requires NeedsCorrection(book)
    requires index(book["pickup_postcode"]) == [c] && Eligible(c, book["pickup"], ratio)
    ensures CorrectPickup(book, index, ratio) == book["pickup" := c]
  {
    var cs := index(book["pickup_postcode"]);
    assert cs[0] == c;
    var m := CorrectAddress(book["pickup"], cs, ratio);
    CorrectAddressSpec(book["pickup"], cs, ratio);
    assert IsBestMatch(m, book["pickup"], cs, ratio);
  }
}
