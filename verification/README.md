# Dispatch call agent: booking state controller

A Dafny model of the per-call booking controller of a phone dispatch agent
(`main.py`). Each inbound call gets a session: a transcript and a nine-field
booking record, both held in process-wide maps keyed by call id. On every
caller turn the controller:

1. strips the recognised speech and re-prompts without any other effect if
   nothing is left;
2. hands the utterance to the interpreter adapter, which appends it and one
   assistant entry to the transcript;
3. merges the interpreter's field suggestions into the booking;
4. corrects the pickup address against the address index when both `pickup`
   and `pickup_postcode` are known;
5. decides confirmation, either from the interpreter's flag or from the caller
   saying "yes", "yeah" or "correct";
6. on confirmation appends the booking as a nine-column row to the booking
   store and hangs up, and otherwise speaks the interpreter's reply.

Modules:

- `Text`: Python's `str.strip()`, `str.lower()` and `str` ordering.
- `Booking`: `FIELDS`, the record, the merge policy (a spec function `Merge`
  and the loop `MergeFields` proved against it), the store row, and the
  confirmation rule.
- `Address`: the `difflib.get_close_matches(..., n=1, cutoff=0.6)` selection
  rule over an abstract similarity score, `correct_address`, and the
  correction pass of a turn.
- `Interpreter`: `chat_gpt_json` as a transcript-append protocol around an
  interpreter answer that is either parsed or failed.
- `Dispatcher`: the store as a value (`Store`) with the two handlers as
  functions on it (`Start` for `voice`, `Continue` for `cont` once the speech
  is stripped) and the lemmas about them, and the class holding
  `conversations`, `bookings` and the store's `rows`, whose methods
  `StartCall` and `ContinueCall` update the fields in place and are proved to
  leave exactly the store those functions describe.

Collaborators enter as parameters:

- the interpreter's answer: `Option<Reply>`, where `None` is a transport or
  parse failure;
- the address index: a function from postcode to candidate list, where `[]`
  means the lookup failed;
- the similarity score: a function `(candidate, spoken) -> real`.

Behaviours one might expect of a dispatcher that the code does not provide;
the model follows the code:

- `phone` is not protected. A non-empty suggestion for it overwrites the
  caller's number (`Booking.PhoneNotProtected`).
- There is no exactly-once persistence. Every confirmed turn appends a row
  (`Dispatcher.RepeatedConfirmationsAppend`).
- A turn for an unknown call id does not answer with a continuation prompt. The
  handler raises after the transcript has been stored, which is the outcome
  `Failed` (`Dispatcher.MissingSessionFails`).
- A repeated call start silently replaces the earlier session
  (`Dispatcher.StartReplaces`).

## Model

| member | source | states |
|---|---|---|
| Text.TrimStart | main.py:138 | the result is a suffix of the input, everything cut is whitespace, and it does not start with whitespace |
| Text.TrimEnd | main.py:138 | the result is a prefix of the input, everything cut is whitespace, and it does not end with whitespace |
| Text.Strip | main.py:138 | the stripped utterance has no whitespace at either end, and it is empty exactly when the utterance is all whitespace |
| Text.StripUnpadded | main.py:138 | an utterance without whitespace at either end is left as it is |
| Text.StripIdempotent | main.py:138 | stripping twice is the same as stripping once |
| Text.Lower | main.py:167 | no contract of its own: `str.lower()` on the utterance, characterised by `Text.LowerMatches` |
| Text.LowerMatches | main.py:167 | lower-casing gives a lower-case word exactly when each character is that word's letter in either case |
| Text.StrLessTotal | main.py:85 | string order is total on distinct strings, so ties in score are always broken |
| Booking.FieldSetListed | main.py:27-30 | the booking keys are exactly the nine names of `FIELDS` |
| Booking.FieldsDistinct | main.py:27-30 | no column name appears twice in `FIELDS` |
| Booking.InitialBooking | main.py:120-124 | a new booking has exactly the `FIELDS` keys, `phone` holds the given number, and every other field is `""` |
| Booking.Merge | main.py:154-156 | no contract of its own: the merge policy of the update loop, characterised by `MergeFill`, `MergeOverrides`, `MergeIgnoresUnknownKeys`, `MergeIdempotent` and `MergeIndependent`, and implemented by `MergeFields` |
| Booking.MergeFields | main.py:154-156 | the per-pair update loop produces exactly the merge policy `Merge` |
| Booking.MergeExtend | main.py:154-156 | one more suggested pair changes the merge only in its own field, and only when the value is non-empty and the key is a booking key |
| Booking.MergeFill | main.py:154-156 | merging keeps the key set, never empties a filled field, and changes a field only to a non-empty suggested value |
| Booking.MergeOverrides | main.py:154-156 | non-empty suggestions for booking keys simply override those keys |
| Booking.PhoneNotProtected | main.py:123-156 | a non-empty `phone` suggestion replaces the caller's number |
| Booking.MergeIgnoresUnknownKeys | main.py:155 | suggestions for keys the booking lacks, such as `confirmed`, change nothing |
| Booking.MergeIdempotent | main.py:154-156 | merging the same suggestions twice equals merging once |
| Booking.MergeIndependent | main.py:154-156 | batches on disjoint keys give the same booking in either order, and the same as their union |
| Booking.MonotonicFill | main.py:154-156 | across any sequence of batches the key set is kept and a non-empty field never becomes `""` |
| Booking.Row | main.py:178 | a store row always has one value per `FIELDS` column |
| Booking.RowRoundTrip | main.py:27-30 | reading a booking's row back by column position gives the booking back |
| Booking.BookingRoundTrip | main.py:178 | every nine-value row is the row of the booking read back from it, so rows and bookings correspond one to one |
| Booking.Confirmed | main.py:167-168 | no contract of its own: the confirmation test, characterised by `ConfirmedCaseInsensitive` |
| Booking.ConfirmedCaseInsensitive | main.py:167-168 | a turn is confirmed exactly when the interpreter's flag is set or the stripped utterance spells "yes", "yeah" or "correct" in any mix of cases |
| Address.OutranksStrictOrder | main.py:85 | ranking by (score, string) is irreflexive and transitive |
| Address.CloseMatch | main.py:85 | no contract of its own: `get_close_matches(..., n=1, cutoff=0.6)`, characterised by `CloseMatchSelects` and `BestMatchUnique` |
| Address.CloseMatchSelects | main.py:85 | no match exactly when no candidate reaches the cutoff; otherwise the match is a listed candidate at or above the cutoff that no eligible candidate outranks by (score, string) |
| Address.BestMatchUnique | main.py:85 | at most one candidate satisfies the best-match condition, so the selection is determined |
| Address.CorrectAddress | main.py:79-86 | no contract of its own: `correct_address` once the lookup is done, characterised by `CorrectAddressSpec` and `CorrectAddressChoices` |
| Address.CorrectAddressSpec | main.py:79-86 | the spoken address is returned when no candidate reaches the cutoff, and otherwise the best match |
| Address.CorrectAddressChoices | main.py:82-86 | the result is the spoken address or a listed candidate, and an empty or failed lookup returns the spoken address |
| Address.CorrectAddressIdempotent | main.py:79-86 | correcting an already corrected address changes nothing, for a score that is 1 exactly on equal strings |
| Address.CorrectAddressNonEmpty | main.py:85-86 | a non-empty spoken address is never corrected to `""` |
| Address.CorrectPickup | main.py:160-164 | the pass runs only when `pickup` and `pickup_postcode` are both non-empty, changes only `pickup`, sets it to the old value or a listed candidate, and leaves it alone on an empty lookup |
| Address.CorrectPickupIdempotent | main.py:160-164 | repeating the correction pass on a later turn with the same index answer changes nothing |
| Address.TurnKeepsFilled | main.py:154-164 | merge followed by correction never turns a non-empty field into `""` |
| Address.LatePostcodeCorrectsPickup | main.py:160-164 | once a postcode arrives, a single close candidate replaces the earlier pickup, and nothing else changes |
| Interpreter.Interpret | main.py:91-109 | the transcript gains exactly the user entry and then one assistant entry (raw answer or apology), it stays alternating, and a failure gives the apology with no suggestions |
| Dispatcher.Start | main.py:115-124 | no contract of its own: `voice` on the store, characterised by `StartReplaces` and implemented by `StartCall` |
| Dispatcher.Continue | main.py:136-186 | no contract of its own: `cont` on the store once the speech is stripped, characterised by the lemmas below and implemented by `ContinueCall` and `Answer` |
| Dispatcher.StartReplaces | main.py:115-124 | starting a call keeps the store invariant; the transcripts become the old ones with an empty transcript under the call id, the bookings the old ones with a fresh booking holding the caller's number (or "Unknown") under the call id, and the rows stay |
| Dispatcher.SilenceChangesNothing | main.py:141-146 | an utterance that is empty after stripping changes nothing and re-prompts |
| Dispatcher.HeardTurnAppendsExchange | main.py:148-151 | a heard turn extends the call's transcript by exactly the utterance and one assistant entry, keeping the earlier entries, and no other transcript changes |
| Dispatcher.MissingSessionFails | main.py:148-160 | a heard turn for a call without a booking fails, with bookings and rows unchanged |
| Dispatcher.RowAppendedIffConfirmed | main.py:166-185 | a row of the settled booking is appended and the call hangs up if and only if the turn is heard, the call has a booking and the turn is confirmed; otherwise the rows stay and the call does not hang up; a heard, unconfirmed turn of a known call speaks the interpreter's reply |
| Dispatcher.YesAffirms | main.py:167-168 | a plain "yes" confirms the turn whatever the interpreter's flag |
| Dispatcher.EveryConfirmationAppends | main.py:174-178 | a confirmed turn of a known call stores one more row, whatever was stored before, and the call keeps its booking |
| Dispatcher.ConfirmedTurnAppends | main.py:174-178 | from every store in which the call has a booking, a confirmed turn keeps the booking and adds one row |
| Dispatcher.RepeatCountsRows | main.py:174-178 | any turn that keeps the call's booking and adds one row adds `n` rows when taken `n` times |
| Dispatcher.RepeatedConfirmationsAppend | main.py:174-178 | `n` confirmed turns of the same call store `n` rows: nothing limits a call to one row |
| Dispatcher.TurnSettlesBooking | main.py:153-164 | the booking a heard turn leaves is the merged then corrected one with the same keys, and no other booking changes |
| Dispatcher.ContinueKeepsInvariant | main.py:136-186 | every turn keeps the store invariant: bookings only for calls with transcripts, every booking with exactly the `FIELDS` keys, every transcript of whole exchanges, every row nine columns wide |
| Dispatcher.RecordKeepsInvariant | main.py:150-151 | storing a transcript extended by one exchange keeps the store invariant |
| Dispatcher.ContinueKeepsFilled | main.py:153-164 | no turn turns a non-empty field of the call's booking into `""` |
| Dispatcher.FreshBookingFills | main.py:120-156 | non-empty suggestions for booking keys other than `pickup` turn a fresh booking into that booking overridden by them, so `phone` stays unless suggested |
| Dispatcher.SilentInterpreterSettles | main.py:153-164 | a failed interpreter call, which suggests nothing, leaves a fresh booking unchanged |
| Dispatcher.ConfirmedFreshCall | main.py:115-180 | a fresh call answered by "yes" while the interpreter fails hangs up and stores exactly the fresh booking's row |
| Dispatcher.Dispatcher.constructor | main.py:23-24 | the store starts with no sessions and no rows |
| Dispatcher.Dispatcher.StartCall | main.py:115-130 | the fields become exactly the store `Start` describes and the answer is the welcome prompt; the store invariant is kept |
| Dispatcher.Dispatcher.ContinueCall | main.py:136-146 | the fields and the answer become exactly those `Continue` gives for the stripped speech; the store invariant is kept |
| Dispatcher.Dispatcher.Answer | main.py:148-186 | the in-place updates of a heard turn (transcript, merge loop, correction, row) leave exactly the store and answer `Continue` gives; the store invariant is kept |
| Dispatcher.ConfirmedScenario | main.py:115-180 | through the class, a started call whose caller says "yes" (with any padding) while the interpreter fails hangs up and stores one row, that of the fresh booking |

## Left out

- Flask routing, reading `request.form` (a missing `CallSid` raises before anything happens) and building TwiML. Each handler's answer is the `Outcome` datatype. An absent `SpeechResult` is passed as `""`.
- The OpenAI call, the system prompt and `json.loads`. The parsed answer is a parameter. `None` covers every exception the adapter catches, and absent `response` and `fields` members default to `""` and `{}`. The answer is not tied to the transcript's contents.
- The postcodes.io request. The index is a function parameter, with a failed request or a null result given as `[]`.
- `difflib`'s SequenceMatcher ratio. It is an abstract real-valued score. Floating-point rounding of the ratio and of the 0.6 cutoff is not modelled. `SimilarityLike` assumes what the ratio satisfies when difflib's automatic junk heuristic does not apply (both strings under 200 characters): values in [0, 1], equal to 1 exactly on equal strings, and 0 between `""` and a non-empty string.
- Creating the CSV header when the file is missing, and write failures. The store is the `rows` field, holding the rows appended since start.
- Configuration, API keys and `print` logging.
- Concurrent turns. The source has no locking, and each handler call is modelled as atomic.
- Values the interpreter might send that are not strings, and Python truthiness of a `confirmed` that is not a bool. Fields are strings, and `confirmed` is a bool that is false when absent. A `fields` member that is not a mapping (which raises in the source) is not modelled.
- Text.Lower: folds only A-Z. The confirmation test gives the same answer as Python's full `str.lower()`, because no other character lower-cases to a string made of the letters of "yes", "yeah" or "correct".
- Interpreter.Interpret: the transcript list is passed and returned by value, not appended in place. `cont` stores the same list back under the call id, so the store ends in the same state. Aliasing between sessions, which the source never creates, is not modelled.
