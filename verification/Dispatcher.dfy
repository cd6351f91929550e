/** The per-call dialogue controller and its session store: the process-wide
    maps from call id to transcript and to booking, and the rows appended to
    the booking store. */
module Dispatcher {
  import opened Wrappers
  import opened Text
  import opened Booking
  import opened Address
  import opened Interpreter

  /** What a request handler answers the telephony gateway. */
  datatype Outcome =
    | Reprompt(say: string)  // nothing was heard: ask again and keep listening
    | Gather(say: string)    // speak and keep listening
    | HangUp(say: string)    // speak, then end the call
    | Failed                 // the handler raised before answering

  const Welcome := "Welcome! Let's book your ride. First, what's your name?"
  const NotCaught := "Sorry, I didn't catch that. Could you say it again?"
  const SignOff := "You'll receive an SMS confirmation shortly. Have a lovely day!"

  /** The process-wide state: transcripts and bookings by call id, and the rows
      appended to the booking store. */
  datatype Store = Store(conversations: map<string, seq<Message>>, bookings: map<string, Booking>,
                         rows: seq<seq<string>>)

  /** A store and the answer a handler gives. */
  datatype Step = Step(store: Store, out: Outcome)

  /** `conversations.get(sid, [])`. */
  function TranscriptOf(st: Store, sid: string): seq<Message> {
    if sid in st.conversations then st.conversations[sid] else []
  }

  /** Every booking has exactly the `FIELDS` keys and a transcript, every
      transcript is made of complete exchanges, every row has nine columns. */
  ghost predicate StoreInvariant(st: Store) {
    && st.bookings.Keys <= st.conversations.Keys
    && (forall sid :: sid in st.bookings ==> IsBooking(st.bookings[sid]))
    && (forall sid :: sid in st.conversations ==> Alternating(st.conversations[sid]))
    && (forall i :: 0 <= i < |st.rows| ==> |st.rows[i]| == |FIELDS|)
  }

  /** `voice`: the call id gets an empty transcript and a fresh booking whose
      `phone` is the caller's number, or "Unknown" when none is given. */
  function Start(st: Store, sid: string, from: Option<string>): Step {
    Step(st.(conversations := st.conversations[sid := []],
             bookings := st.bookings[sid := InitialBooking(from.GetOr("Unknown"))]),
         Gather(Welcome))
  }

  /** The booking a turn leaves: the suggestions merged in, then the pickup corrected. */
  function Settle(book: Booking, fields: Suggestions, index: AddressIndex, ratio: Ratio): Booking {
    CorrectPickup(Merge(book, fields.values), index, ratio)
  }

  /** The store once a heard exchange is recorded: the utterance and the
      assistant entry appended to the call's transcript. */
  function Record(st: Store, sid: string, said: string, answer: Option<Reply>): Store {
    st.(conversations := st.conversations[sid := TranscriptOf(st, sid) + [Message(User, said), Message(Assistant, AssistantText(answer))]])
  }

  /** `cont` once the recognised speech is stripped: `said` is the stripped
      utterance, `answer` what the interpreter returns for the transcript,
      `index` the address index and `ratio` the similarity score. */
  function Continue(st: Store, sid: string, said: string, answer: Option<Reply>,
                    index: AddressIndex, ratio: Ratio): Step
  {
    if said == "" then Step(st, Reprompt(NotCaught))
    else
      var talked := Record(st, sid, said, answer);
      if sid !in st.bookings then Step(talked, Failed)
      else
        var fields := FieldsOf(answer);
        var book := Settle(st.bookings[sid], fields, index, ratio);
        var settled := talked.(bookings := st.bookings[sid := book]);
        if Confirmed(fields.confirmed, said) then Step(settled.(rows := st.rows + [Row(book)]), HangUp(SignOff))
        else Step(settled, Gather(ReplyText(answer)))
  }

  /** Starting a call keeps the invariant, replaces any earlier session under
      the same id, and touches no other session and no row. */
  lemma StartReplaces(st: Store, sid: string, from: Option<string>)
    requires StoreInvariant(st)
    ensures var s := Start(st, sid, from).store;
      && StoreInvariant(s)
      && s.conversations == st.conversations[sid := []]
      && s.bookings == st.bookings[sid := InitialBooking(from.GetOr("Unknown"))]
      && s.rows == st.rows
  {
  }

  /** Silence is a no-op: when the stripped utterance is empty, nothing is
      consulted, nothing changes, and the caller is asked again. (The utterance
      is empty after stripping exactly when the speech is all whitespace: `Text.Strip`.) */
  lemma SilenceChangesNothing(st: Store, sid: string, said: string, answer: Option<Reply>,
                              index: AddressIndex, ratio: Ratio)
    requires said == ""
    ensures Continue(st, sid, said, answer, index, ratio) == Step(st, Reprompt(NotCaught))
  {
  }

  /** A heard turn appends exactly one exchange to the call's transcript, the
      stripped utterance then the assistant entry, and no other transcript changes. */
  lemma HeardTurnAppendsExchange(st: Store, sid: string, said: string, answer: Option<Reply>,
                                 index: AddressIndex, ratio: Ratio)
    requires said != ""
    ensures var s := Continue(st, sid, said, answer, index, ratio).store;
      && sid in s.conversations
      && |s.conversations[sid]| == |TranscriptOf(st, sid)| + 2
      && s.conversations[sid][..|TranscriptOf(st, sid)|] == TranscriptOf(st, sid)
      && s.conversations[sid][|TranscriptOf(st, sid)|] == Message(User, said)
      && s.conversations[sid][|TranscriptOf(st, sid)| + 1].role == Assistant
      && (forall other :: other != sid ==> TranscriptOf(s, other) == TranscriptOf(st, other))
  {
    var s := Continue(st, sid, said, answer, index, ratio).store;
    forall other | other != sid ensures TranscriptOf(s, other) == TranscriptOf(st, other) {
    }
  }

  /** A turn for a call id without a booking fails; only its transcript was stored. */
  lemma MissingSessionFails(st: Store, sid: string, said: string, answer: Option<Reply>,
                            index: AddressIndex, ratio: Ratio)
    requires said != "" && sid !in st.bookings
    ensures var r := Continue(st, sid, said, answer, index, ratio);
      r.out == Failed && r.store.bookings == st.bookings && r.store.rows == st.rows
  {
  }

  /** A row is appended if and only if the turn is heard, the call has a
      booking and the turn is confirmed; the row is then the settled booking in
      `FIELDS` order, and the call hangs up. Otherwise the rows stay and the
      answer is the interpreter's reply for a heard turn of a known call. */
  lemma RowAppendedIffConfirmed(st: Store, sid: string, said: string, answer: Option<Reply>,
                                index: AddressIndex, ratio: Ratio)
    ensures var r := Continue(st, sid, said, answer, index, ratio);
      var appends := said != "" && sid in st.bookings && Confirmed(FieldsOf(answer).confirmed, said);
      && (appends ==> r.store.rows == st.rows + [Row(r.store.bookings[sid])] && r.out == HangUp(SignOff))
      && (!appends ==> r.store.rows == st.rows && !r.out.HangUp?)
      && (said != "" && sid in st.bookings && !Confirmed(FieldsOf(answer).confirmed, said) ==>
            r.out == Gather(ReplyText(answer)))
  {
  }

  /** "yes" confirms a turn whatever the interpreter's flag says. */
  lemma YesAffirms(flag: bool)
    ensures Confirmed(flag, "yes")
  {
    ConfirmedCaseInsensitive(flag, "yes");
    assert SameIgnoringCase("yes", "yes");
  }

  /** A confirmed turn for a known call stores one more row and keeps the
      call's booking, whatever was stored before. */
  lemma EveryConfirmationAppends(st: Store, sid: string, said: string, answer: Option<Reply>,
                                 index: AddressIndex, ratio: Ratio)
    requires said != "" && sid in st.bookings && Confirmed(FieldsOf(answer).confirmed, said)
    ensures var r := Continue(st, sid, said, answer, index, ratio).store;
      sid in r.bookings && |r.rows| == |st.rows| + 1
  {
    RowAppendedIffConfirmed(st, sid, said, answer, index, ratio);
  }

  /** The store after `n` applications of one turn, `step`. */
  function Repeat(step: Store -> Store, st: Store, n: nat): Store
    decreases n
  {
    if n == 0 then st else step(Repeat(step, st, n - 1))
  }

  /** A turn that keeps the call's booking and adds one row, repeated `n`
      times, adds `n` rows. */
  lemma {:induction false} RepeatCountsRows(step: Store -> Store, sid: string, st: Store, n: nat)
    requires forall s: Store {:trigger step(s)} :: sid in s.bookings ==> sid in step(s).bookings && |step(s).rows| == |s.rows| + 1
    requires sid in st.bookings
    ensures sid in Repeat(step, st, n).bookings && |Repeat(step, st, n).rows| == |st.rows| + n
    decreases n
  {
    if n > 0 {
      RepeatCountsRows(step, sid, st, n - 1);
    }
  }

  /** One turn of the call `sid` in which the caller says `said`. */
  function TurnOf(sid: string, said: string, answer: Option<Reply>, index: AddressIndex, ratio: Ratio): Store -> Store {
    st => Continue(st, sid, said, answer, index, ratio).store
  }

  /** `EveryConfirmationAppends` for every store at once. */
  lemma ConfirmedTurnAppends(sid: string, said: string, answer: Option<Reply>, index: AddressIndex, ratio: Ratio)
    requires said != "" && Confirmed(FieldsOf(answer).confirmed, said)
    ensures var step := TurnOf(sid, said, answer, index, ratio);
      forall s: Store {:trigger step(s)} :: sid in s.bookings ==> sid in step(s).bookings && |step(s).rows| == |s.rows| + 1
  {
    var step := TurnOf(sid, said, answer, index, ratio);
    forall s: Store | sid in s.bookings ensures sid in step(s).bookings && |step(s).rows| == |s.rows| + 1 {
      EveryConfirmationAppends(s, sid, said, answer, index, ratio);
      assert step(s) == Continue(s, sid, said, answer, index, ratio).store;
    }
  }

  /** Nothing limits a call to one row: `n` confirmed turns of a known call
      store `n` rows (a plain "yes" is such a turn, `YesAffirms`). */
  lemma RepeatedConfirmationsAppend(st: Store, sid: string, said: string, answer: Option<Reply>,
                                    index: AddressIndex, ratio: Ratio, n: nat)
    requires said != "" && sid in st.bookings && Confirmed(FieldsOf(answer).confirmed, said)
    ensures var r := Repeat(TurnOf(sid, said, answer, index, ratio), st, n);
      sid in r.bookings && |r.rows| == |st.rows| + n
  {
    ConfirmedTurnAppends(sid, said, answer, index, ratio);
    RepeatCountsRows(TurnOf(sid, said, answer, index, ratio), sid, st, n);
  }

  /** The booking a heard turn leaves for a known call is the merged and
      corrected one; it keeps its key set, and no other booking changes. */
  lemma TurnSettlesBooking(st: Store, sid: string, said: string, answer: Option<Reply>,
                           index: AddressIndex, ratio: Ratio)
    requires said != "" && sid in st.bookings
    ensures var s := Continue(st, sid, said, answer, index, ratio).store;
      && s.bookings == st.bookings[sid := Settle(st.bookings[sid], FieldsOf(answer), index, ratio)]
      && s.bookings[sid].Keys == st.bookings[sid].Keys
  {
    MergeFill(st.bookings[sid], FieldsOf(answer).values);
  }

  /** Every turn keeps the store invariant. */
  lemma ContinueKeepsInvariant(st: Store, sid: string, said: string, answer: Option<Reply>,
                               index: AddressIndex, ratio: Ratio)
    requires StoreInvariant(st)
    ensures StoreInvariant(Continue(st, sid, said, answer, index, ratio).store)
  {
    if said != "" {
      RecordKeepsInvariant(st, sid, said, answer);
      if sid in st.bookings {
        var talked := Record(st, sid, said, answer);
        var book := Settle(st.bookings[sid], FieldsOf(answer), index, ratio);
        MergeFill(st.bookings[sid], FieldsOf(answer).values);
        assert IsBooking(book);
        var settled := talked.(bookings := st.bookings[sid := book]);
        assert StoreInvariant(settled);
        assert StoreInvariant(settled.(rows := st.rows + [Row(book)]));
      }
    }
  }

  /** Recording an exchange keeps the invariant. */
  lemma RecordKeepsInvariant(st: Store, sid: string, said: string, answer: Option<Reply>)
    requires StoreInvariant(st)
    ensures StoreInvariant(Record(st, sid, said, answer))
  {
    var t := TranscriptOf(st, sid) + [Message(User, said), Message(Assistant, AssistantText(answer))];
    assert Alternating(t);
  }

  /** Monotonic fill over a heard turn: a non-empty field of the call's
      booking stays non-empty (for a score that behaves like `difflib`'s). */
  lemma ContinueKeepsFilled(st: Store, sid: string, said: string, answer: Option<Reply>,
                            index: AddressIndex, ratio: Ratio, k: string)
    requires SimilarityLike(ratio)
    requires sid in st.bookings && k in st.bookings[sid] && st.bookings[sid][k] != ""
    ensures var s := Continue(st, sid, said, answer, index, ratio).store;
      sid in s.bookings && k in s.bookings[sid] && s.bookings[sid][k] != ""
  {
    if said != "" {
      MergeFill(st.bookings[sid], FieldsOf(answer).values);
      TurnKeepsFilled(st.bookings[sid], FieldsOf(answer).values, index, ratio, k);
    }
  }

  /** A turn that suggests non-empty values for booking keys other than
      `pickup` turns a fresh booking into that booking overridden by the
      suggestions; in particular `phone` stays unless it is suggested. */
  lemma FreshBookingFills(phone: string, fields: Suggestions, index: AddressIndex, ratio: Ratio)
    requires fields.values.Keys <= FieldSet && "pickup" !in fields.values
    requires forall k :: k in fields.values ==> fields.values[k] != ""
    ensures Settle(InitialBooking(phone), fields, index, ratio) == InitialBooking(phone) + fields.values
  {
    FieldSetListed();
    MergeOverrides(InitialBooking(phone), fields.values);
    assert !NeedsCorrection(InitialBooking(phone) + fields.values);
  }

  class Dispatcher {
    var conversations: map<string, seq<Message>>
    var bookings: map<string, Booking>
    var rows: seq<seq<string>>

    /** The store these fields hold. */
    function State(): Store
      reads this
    {
      Store(conversations, bookings, rows)
    }

    ghost predicate Valid()
      reads this
    {
      StoreInvariant(State())
    }

    constructor ()
      ensures Valid()
      ensures conversations == map[] && bookings == map[] && rows == []
    {
      conversations := map[];
      bookings := map[];
      rows := [];
    }

    /** `voice`: an earlier session under the same id is replaced. */
    method StartCall(sid: string, from: Option<string>) returns (out: Outcome)
      requires Valid()
      modifies this
      ensures Step(State(), out) == Start(old(State()), sid, from)
      ensures Valid()
    {
      StartReplaces(State(), sid, from);
      conversations := conversations[sid := []];
      bookings := bookings[sid := InitialBooking(from.GetOr("Unknown"))];
      out := Gather(Welcome);
    }

    /** `cont`: strip the recognised speech, re-prompt on silence, and
        otherwise answer the heard turn. */
    method ContinueCall(sid: string, speech: string, answer: Option<Reply>, index: AddressIndex, ratio: Ratio)
      returns (out: Outcome)
      requires Valid()
      modifies this
      ensures Step(State(), out) == Continue(old(State()), sid, Strip(speech), answer, index, ratio)
      ensures Valid()
    {
      var said := Strip(speech);
      if said == "" {
        return Reprompt(NotCaught);
      }
      out := Answer(sid, said, answer, index, ratio);
    }

    /** A heard turn: consult the interpreter and store the transcript, fail
        without a booking, and otherwise settle the booking and either store
        its row and hang up or speak the reply. */
    method Answer(sid: string, said: string, answer: Option<Reply>, index: AddressIndex, ratio: Ratio)
      returns (out: Outcome)
      requires Valid() && said != ""
      modifies this
      ensures Step(State(), out) == Continue(old(State()), sid, said, answer, index, ratio)
      ensures Valid()
    {
      ContinueKeepsInvariant(State(), sid, said, answer, index, ratio);
      var convo := if sid in conversations then conversations[sid] else [];
      var reply, fields, updated := Interpret(said, convo, answer);
      conversations := conversations[sid := updated];
      if sid !in bookings {
        return Failed;
      }
      var book := MergeFields(bookings[sid], fields.values);
      book := CorrectPickup(book, index, ratio);
      bookings := bookings[sid := book];
      if Confirmed(fields.confirmed, said) {
        rows := rows + [Row(book)];
        out := HangUp(SignOff);
      } else {
        out := Gather(reply);
      }
    }
  }

  /** A turn with nothing to merge leaves a fresh booking as it is. */
  lemma SilentInterpreterSettles(phone: string, index: AddressIndex, ratio: Ratio)
    ensures Settle(InitialBooking(phone), NoSuggestions, index, ratio) == InitialBooking(phone)
  {
    FieldSetListed();
    assert Merge(InitialBooking(phone), map[]) == InitialBooking(phone);
  }

  /** A fresh call answered by a plain "yes" while the interpreter fails is
      confirmed by the safety net: the fresh booking is stored as a row and
      the call ends. */
  lemma ConfirmedFreshCall(phone: string, index: AddressIndex, ratio: Ratio)
    ensures var s1 := Start(Store(map[], map[], []), "CA1", Some(phone)).store;
      var r := Continue(s1, "CA1", "yes", None, index, ratio);
      r.out == HangUp(SignOff) && r.store.rows == [Row(InitialBooking(phone))]
  {
    var s1 := Start(Store(map[], map[], []), "CA1", Some(phone)).store;
    assert s1.bookings == map["CA1" := InitialBooking(phone)] && s1.rows == [];
    YesAffirms(false);
    SilentInterpreterSettles(phone, index, ratio);
    RowAppendedIffConfirmed(s1, "CA1", "yes", None, index, ratio);
    TurnSettlesBooking(s1, "CA1", "yes", None, index, ratio);
  }

  /** The same call driven through the class, the caller saying "yes" with
      any padding around it. */
  method ConfirmedScenario(speech: string, index: AddressIndex, ratio: Ratio) returns (rows: seq<seq<string>>, out: Outcome)
    requires Strip(speech) == "yes"
    ensures out == HangUp(SignOff)
    ensures rows == [Row(InitialBooking("+15551234567"))]
  {
    var d := new Dispatcher();
    var _ := d.StartCall("CA1", Some("+15551234567"));
    ConfirmedFreshCall("+15551234567", index, ratio);
    out := d.ContinueCall("CA1", speech, None, index, ratio);
    rows := d.rows;
  }
}
