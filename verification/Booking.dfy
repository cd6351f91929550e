/** The booking record a call fills in, the policy that merges the
    interpreter's suggestions into it, the confirmation rule and the row
    written to the booking store. */
module Booking {
  import opened Text

  /** Column order of the booking store; also the keys of every booking. */
  const FIELDS: seq<string> :=
    ["name", "passengers", "luggage", "child_seats", "wheelchair",
     "pickup_postcode", "pickup", "dropoff", "phone"]

  /** The set of booking keys. */
  const FieldSet: set<string> := set i | 0 <= i < |FIELDS| :: FIELDS[i]

  /** `FieldSet` written out. */
  lemma FieldSetListed()
    ensures FieldSet == {"name", "passengers", "luggage", "child_seats", "wheelchair",
                         "pickup_postcode", "pickup", "dropoff", "phone"}
  {
    assert FIELDS[0] == "name" && FIELDS[1] == "passengers" && FIELDS[2] == "luggage";
    assert FIELDS[3] == "child_seats" && FIELDS[4] == "wheelchair" && FIELDS[5] == "pickup_postcode";
    assert FIELDS[6] == "pickup" && FIELDS[7] == "dropoff" && FIELDS[8] == "phone";
  }

  /** A booking record: field name to spoken value, `""` while unknown. */
  type Booking = map<string, string>

  /** A well-formed booking has exactly the keys of `FIELDS`. */
  predicate IsBooking(b: Booking) {
    b.Keys == FieldSet
  }

  /** The booking a new call starts with: every field empty except `phone`. */
  function InitialBooking(phone: string): (b: Booking)
    ensures IsBooking(b)
    ensures "phone" in b && b["phone"] == phone
    ensures forall k :: k in b && k != "phone" ==> b[k] == ""
  {
    FieldSetListed();
    map["name" := "", "passengers" := "", "luggage" := "", "child_seats" := "",
        "wheelchair" := "", "pickup_postcode" := "", "pickup" := "",
        "dropoff" := "", "phone" := phone]
  }

  /** What the interpreter suggests in one turn: its string-valued fields, and
      its `confirmed` flag (false when absent). */
  datatype Suggestions = Suggestions(values: map<string, string>, confirmed: bool)

  /** The suggestions of a failed interpreter call: `{}`. */
  const NoSuggestions := Suggestions(map[], false)

  /** The merge policy: a key of the booking takes the suggested value when one
      is suggested and it is not `""`; every other key keeps its value, and
      suggested keys the booking does not have are ignored. */
  function Merge(book: Booking, values: map<string, string>): Booking {
    map k | k in book :: if k in values && values[k] != "" then values[k] else book[k]
  }

  /** The in-place update loop of a turn: each suggested pair is visited once,
      and written into the booking when its key is a booking key and its value
      is not empty. */
  method MergeFields(book: Booking, values: map<string, string>) returns (merged: Booking)
    ensures merged == Merge(book, values)
  {
    merged := book;
    var todo := values.Keys;
    assert values - todo == map[];
    while todo != {}
      invariant todo <= values.Keys
      invariant merged == Merge(book, values - todo)
      decreases todo
    {
      var k :| k in todo;
      MergeExtend(book, values - todo, k, values[k]);
      if k in merged && values[k] != "" {
        merged := merged[k := values[k]];
      }
      assert values - (todo - {k}) == (values - todo)[k := values[k]];
      todo := todo - {k};
    }
    assert values - todo == values;
  }

  /** One more suggestion changes the merge in that field alone, and only when
      it is non-empty and names a booking key. */
  lemma MergeExtend(book: Booking, done: map<string, string>, k: string, v: string)
    requires k !in done
    ensures Merge(book, done[k := v]) == if k in book && v != "" then Merge(book, done)[k := v] else Merge(book, done)
  {
    var m, m' := Merge(book, done), Merge(book, done[k := v]);
    assert m'.Keys == m.Keys == book.Keys;
    forall j | j in book ensures m'[j] == if j == k && v != "" then v else m[j] {
    }
  }

  /** Merging keeps the key set, never turns a filled field into `""`, and a
      field changes only to a non-empty suggested value. */
  lemma MergeFill(book: Booking, values: map<string, string>)
    ensures Merge(book, values).Keys == book.Keys
    ensures forall k :: k in book && book[k] != "" ==> Merge(book, values)[k] != ""
    ensures forall k :: k in book && Merge(book, values)[k] != book[k] ==>
      k in values && values[k] == Merge(book, values)[k] && values[k] != ""
  {
  }

  /** A batch of non-empty suggestions for booking keys simply overrides those keys. */
  lemma MergeOverrides(book: Booking, values: map<string, string>)
    requires values.Keys <= book.Keys
    requires forall k :: k in values ==> values[k] != ""
    ensures Merge(book, values) == book + values
  {
  }

  /** `phone` is a booking key like the others: a non-empty suggestion for it
      replaces the caller's number. */
  lemma PhoneNotProtected(phone: string, suggested: string)
    requires suggested != ""
    ensures Merge(InitialBooking(phone), map["phone" := suggested])["phone"] == suggested
  {
  }

  /** Suggestions for keys outside the booking, `confirmed` among them, have no effect. */
  lemma MergeIgnoresUnknownKeys(book: Booking, values: map<string, string>, k: string, v: string)
    requires k !in book
    ensures Merge(book, values[k := v]) == Merge(book, values)
  {
  }

  /** Applying the same suggestions twice is the same as once. */
  lemma MergeIdempotent(book: Booking, values: map<string, string>)
    ensures Merge(Merge(book, values), values) == Merge(book, values)
  {
  }

  /** Fields are merged independently: batches on disjoint keys can be applied in
      either order, or together. */
  lemma MergeIndependent(book: Booking, v1: map<string, string>, v2: map<string, string>)
    requires v1.Keys !! v2.Keys
    ensures Merge(Merge(book, v1), v2) == Merge(book, v1 + v2)
    ensures Merge(Merge(book, v2), v1) == Merge(book, v1 + v2)
  {
  }

  /** The booking after a sequence of suggestion batches, in order. */
  function MergeAll(book: Booking, batches: seq<map<string, string>>): Booking
    decreases |batches|
  {
    if batches == [] then book else MergeAll(Merge(book, batches[0]), batches[1..])
  }

  /** Monotonic fill: across any sequence of batches the key set stays the same
      and a field once non-empty is never reset to `""`. */
  lemma {:induction false} MonotonicFill(book: Booking, batches: seq<map<string, string>>, k: string)
    requires k in book && book[k] != ""
    ensures MergeAll(book, batches).Keys == book.Keys
    ensures MergeAll(book, batches)[k] != ""
    decreases |batches|
  {
    if batches != [] {
      MergeFill(book, batches[0]);
      MonotonicFill(Merge(book, batches[0]), batches[1..], k);
    }
  }

  /** The store row of a booking: its values in `FIELDS` order, `""` for a missing key. */
  function Row(book: Booking): (row: seq<string>)
    ensures |row| == |FIELDS|
  {
    seq(|FIELDS|, i requires 0 <= i < |FIELDS| => if FIELDS[i] in book then book[FIELDS[i]] else "")
  }

  /** Position of a key in `FIELDS`. */
  function FieldIndex(k: string): (i: nat)
    requires k in FieldSet
    ensures i < |FIELDS| && FIELDS[i] == k
  {
    if k == "name" then 0 else if k == "passengers" then 1 else if k == "luggage" then 2
    else if k == "child_seats" then 3 else if k == "wheelchair" then 4
    else if k == "pickup_postcode" then 5 else if k == "pickup" then 6
    else if k == "dropoff" then 7 else 8
  }

  /** Reading a stored row back into a booking, by column position. */
  function RowToBooking(row: seq<string>): (b: Booking)
    requires |row| == |FIELDS|
    ensures IsBooking(b)
  {
    map k | k in FieldSet :: row[FieldIndex(k)]
  }

  /** No column name appears twice. */
  lemma FieldsDistinct()
    ensures forall i, j :: 0 <= i < j < |FIELDS| ==> FIELDS[i] != FIELDS[j]
  {
  }

  /** A well-formed booking survives the trip to a row and back. */
  lemma RowRoundTrip(book: Booking)
    requires IsBooking(book)
    ensures RowToBooking(Row(book)) == book
  {
    forall k | k in FieldSet ensures RowToBooking(Row(book))[k] == book[k] {
      assert Row(book)[FieldIndex(k)] == book[k];
    }
  }

  /** Every nine-column row is the row of exactly the booking read back from it. */
  lemma BookingRoundTrip(row: seq<string>)
    requires |row| == |FIELDS|
    ensures Row(RowToBooking(row)) == row
  {
    FieldsDistinct();
    forall i | 0 <= i < |FIELDS| ensures Row(RowToBooking(row))[i] == row[i] {
      assert FIELDS[i] in FieldSet;
      assert FieldIndex(FIELDS[i]) == i;
    }
  }

  /** The caller answers that count as a confirmation. */
  const AFFIRMATIONS: seq<string> := ["yes", "yeah", "correct"]

  /** The effective confirmation of a turn: the interpreter's flag, or the
      (already stripped) utterance lower-cased is one of the affirmations. */
  predicate Confirmed(flag: bool, said: string) {
    flag || Lower(said) in AFFIRMATIONS
  }

  /** `s` spells the lower-case word `w` in any mix of cases. */
  predicate SameIgnoringCase(s: string, w: string) {
    |s| == |w| && forall i :: 0 <= i < |s| ==> s[i] == w[i] || s[i] as int == w[i] as int - 32
  }

  /** The safety net is case-insensitive and exact: without the interpreter's
      flag a turn confirms exactly when the utterance is "yes", "yeah" or
      "correct" in some mix of cases, and nothing else. */
  lemma ConfirmedCaseInsensitive(flag: bool, said: string)
    ensures Confirmed(flag, said) <==>
      flag || SameIgnoringCase(said, "yes") || SameIgnoringCase(said, "yeah")
           || SameIgnoringCase(said, "correct")
  {
    LowerMatches(said, "yes");
    LowerMatches(said, "yeah");
    LowerMatches(said, "correct");
  }
}
