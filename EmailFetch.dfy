/**
 * The settle-once latch of `fetchUnreadEmails` in
 * backend/src/services/emailService.js. The IMAP connection, the search, the
 * fetch and the MIME parser are replaced by the events their handlers react
 * to; `Step` is what one handler does to the shared state (the
 * `connectionClosed` flag, the `emails` array, the promise, the `imap.end()`
 * request and the 30-second timer).
 */
module EmailFetch {
  import opened Wrappers
  import opened Ids

  /** The fields of a parsed message the rest of the system uses. */
  datatype InboundEmail = InboundEmail(
    from: string,
    subject: Option<string>,
    text: Option<string>,
    html: Option<string>,
    date: Option<Time>)

  /** Which handler rejected the promise. */
  datatype FetchFailure = OpenBoxFailed | SearchFailed | FetchFailed | ConnectionFailed

  /**
   * The promise. `ResolvedWithList` is resolved with the `emails` array itself,
   * so the caller sees whatever that array holds; `ResolvedEmpty` is `resolve([])`.
   */
  datatype Outcome = Pending | ResolvedWithList | ResolvedEmpty | Rejected(failure: FetchFailure)

  datatype Event =
    | OpenBoxError
    | SearchError
    | SearchEmpty
    | MessageParsed(email: InboundEmail)
    | ParseError
    | FetchError
    | FetchEnd
    | ImapError(reset: bool)   // `reset` is `err.code === 'ECONNRESET'`
    | ImapEnd
    | Timeout
    | Close

  datatype FetchState = FetchState(
    closed: bool,
    emails: seq<InboundEmail>,
    delivered: seq<InboundEmail>,   // the messages handed to the callback, in order
    outcome: Outcome,
    endRequested: bool,
    timerCleared: bool,
    hasCallback: bool)

  /** The state right after `imap.connect()`. */
  function Init(hasCallback: bool): (st: FetchState)
    ensures !st.closed && st.outcome == Pending && st.emails == [] && st.delivered == []
  {
    FetchState(false, [], [], Pending, false, false, hasCallback)
  }

  /** A promise settles once: a second `resolve` or `reject` is ignored. */
  function Settle(o: Outcome, v: Outcome): (r: Outcome)
    ensures o != Pending ==> r == o
    ensures o == Pending ==> r == v
  {
    if o == Pending then v else o
  }

  /** The guarded shutdown `if (!connectionClosed) { connectionClosed = true; [imap.end();] settle }`. */
  function Latch(st: FetchState, callsEnd: bool, v: Outcome): FetchState {
    if st.closed then st
    else st.(closed := true, endRequested := st.endRequested || callsEnd, outcome := Settle(st.outcome, v))
  }

  /** One event handler, as the source writes it. */
  function Step(st: FetchState, e: Event): FetchState {
    match e
    case OpenBoxError => Latch(st, true, Rejected(OpenBoxFailed))
    case SearchError => Latch(st, true, Rejected(SearchFailed))
    case SearchEmpty =>
      // the guard covers only `imap.end()`; `resolve([])` runs either way
      var s := if st.closed then st else st.(closed := true, endRequested := true);
      s.(outcome := Settle(s.outcome, ResolvedEmpty))
    case MessageParsed(m) =>
      st.(emails := st.emails + [m], delivered := if st.hasCallback then st.delivered + [m] else st.delivered)
    case ParseError => st
    case FetchError => Latch(st, true, Rejected(FetchFailed))
    case FetchEnd =>
      // closes the latch but settles nothing
      if st.closed then st else st.(closed := true, endRequested := true)
    case ImapError(reset) =>
      Latch(st, false, if reset then ResolvedWithList else Rejected(ConnectionFailed))
    case ImapEnd => Latch(st, false, ResolvedWithList)
    case Timeout => if st.timerCleared then st else Latch(st, true, ResolvedWithList)
    case Close => st.(timerCleared := true)
  }

  /** The fetch `end` handler with `resolve(emails)` inside its guard. */
  function StepFixed(st: FetchState, e: Event): FetchState {
    if e == FetchEnd then Latch(st, true, ResolvedWithList) else Step(st, e)
  }

  function Run(st: FetchState, evs: seq<Event>): FetchState
    decreases |evs|
  {
    if evs == [] then st else Run(Step(st, evs[0]), evs[1..])
  }

  function RunFixed(st: FetchState, evs: seq<Event>): FetchState
    decreases |evs|
  {
    if evs == [] then st else RunFixed(StepFixed(st, evs[0]), evs[1..])
  }

  /** What the awaiting caller receives, once the promise is resolved. */
  function Value(st: FetchState): Option<seq<InboundEmail>> {
    match st.outcome
    case ResolvedWithList => Some(st.emails)
    case ResolvedEmpty => Some([])
    case _ => None
  }

  // ---------------------------------------------------------------------------
  // One handler
  // ---------------------------------------------------------------------------

  /** A settled promise never changes, and the latch never reopens. */
  lemma StepSettlesOnce(st: FetchState, e: Event)
    ensures st.outcome != Pending ==> Step(st, e).outcome == st.outcome && StepFixed(st, e).outcome == st.outcome
    ensures st.closed ==> Step(st, e).closed && StepFixed(st, e).closed
  {
  }

  /** The promise is only ever settled together with closing the latch. */
  predicate SettledClosed(st: FetchState) {
    st.outcome != Pending ==> st.closed
  }

  lemma StepKeepsSettledClosed(st: FetchState, e: Event)
    requires SettledClosed(st)
    ensures SettledClosed(Step(st, e)) && SettledClosed(StepFixed(st, e))
  {
  }

  /**
   * The first terminal handler decides: on an open latch, ECONNRESET, the IMAP
   * end and a live timer resolve with the collected list, any other error
   * rejects, an empty search resolves with `[]`.
   */
  lemma FirstTerminalDecides(st: FetchState, e: Event)
    requires !st.closed && st.outcome == Pending
    ensures e.OpenBoxError? ==> Step(st, e).outcome == Rejected(OpenBoxFailed)
    ensures e.SearchError? ==> Step(st, e).outcome == Rejected(SearchFailed)
    ensures e.FetchError? ==> Step(st, e).outcome == Rejected(FetchFailed)
    ensures e == ImapError(false) ==> Step(st, e).outcome == Rejected(ConnectionFailed)
    ensures e == ImapError(true) || e == ImapEnd || (e == Timeout && !st.timerCleared) ==>
      Step(st, e).outcome == ResolvedWithList && Value(Step(st, e)) == Some(st.emails)
    ensures e == SearchEmpty ==> Value(Step(st, e)) == Some([])
    ensures (e.MessageParsed? || e == ParseError || e == Close || (e == Timeout && st.timerCleared)) <==> !Step(st, e).closed
  {
  }

  /**
   * A parsed message is pushed whatever the latch says, and handed to the
   * callback when there is one; a parse failure changes nothing.
   */
  lemma MessagesCollected(st: FetchState, m: InboundEmail)
    ensures Step(st, MessageParsed(m)).emails == st.emails + [m]
    ensures Step(st, MessageParsed(m)).delivered == (if st.hasCallback then st.delivered + [m] else st.delivered)
    ensures Step(st, MessageParsed(m)).outcome == st.outcome && Step(st, MessageParsed(m)).closed == st.closed
    ensures Step(st, ParseError) == st
  {
  }

  // ---------------------------------------------------------------------------
  // Whole event sequences
  // ---------------------------------------------------------------------------

  lemma {:induction false} RunAppend(st: FetchState, a: seq<Event>, b: seq<Event>)
    ensures Run(st, a + b) == Run(Run(st, a), b)
    ensures RunFixed(st, a + b) == RunFixed(RunFixed(st, a), b)
    decreases |a|
  {
    if a == [] {
      assert a + b == b;
    } else {
      assert (a + b)[1..] == a[1..] + b;
      RunAppend(Step(st, a[0]), a[1..], b);
      RunAppend(StepFixed(st, a[0]), a[1..], b);
    }
  }

  /** Once settled, later events leave the promise and the latch as they are. */
  lemma {:induction false} RunSettlesOnce(st: FetchState, evs: seq<Event>)
    ensures st.outcome != Pending ==> Run(st, evs).outcome == st.outcome && RunFixed(st, evs).outcome == st.outcome
    ensures st.closed ==> Run(st, evs).closed && RunFixed(st, evs).closed
    decreases |evs|
  {
    if evs != [] {
      StepSettlesOnce(st, evs[0]);
      RunSettlesOnce(Step(st, evs[0]), evs[1..]);
      RunSettlesOnce(StepFixed(st, evs[0]), evs[1..]);
    }
  }

  /**
   * Settles at most once over a whole run: the outcome reached after any prefix
   * that settled it is the final outcome.
   */
  lemma SettledPrefixDecides(st: FetchState, evs: seq<Event>, k: nat)
    requires k <= |evs| && Run(st, evs[..k]).outcome != Pending
    ensures Run(st, evs).outcome == Run(st, evs[..k]).outcome
  {
    assert evs == evs[..k] + evs[k..];
    RunAppend(st, evs[..k], evs[k..]);
    RunSettlesOnce(Run(st, evs[..k]), evs[k..]);
  }

  lemma {:induction false} RunKeepsSettledClosed(st: FetchState, evs: seq<Event>)
    requires SettledClosed(st)
    ensures SettledClosed(Run(st, evs)) && SettledClosed(RunFixed(st, evs))
    decreases |evs|
  {
    if evs != [] {
      StepKeepsSettledClosed(st, evs[0]);
      RunKeepsSettledClosed(Step(st, evs[0]), evs[1..]);
      RunKeepsSettledClosed(StepFixed(st, evs[0]), evs[1..]);
    }
  }

  // ---------------------------------------------------------------------------
  // The fetch `end` handler
  // ---------------------------------------------------------------------------

  /**
   * As written, a normal fetch closes the latch in its `end` handler without
   * settling; every later handler that could settle is guarded by the latch
   * (and an empty search cannot follow a fetch), so the promise stays pending.
   */
  lemma {:induction false} PendingAfterFetchEnd(st: FetchState, evs: seq<Event>)
    requires st.closed && st.outcome == Pending
    requires forall i :: 0 <= i < |evs| ==> evs[i] != SearchEmpty
    ensures Run(st, evs).outcome == Pending
    decreases |evs|
  {
    if evs != [] {
      PendingAfterFetchEnd(Step(st, evs[0]), evs[1..]);
    }
  }

  /** A whole fetch of one message, as written: it never settles. */
  lemma FetchNeverSettles(m: InboundEmail)
    ensures Run(Init(true), [MessageParsed(m), FetchEnd, ImapEnd, Close, Timeout]).outcome == Pending
    ensures Run(Init(true), [MessageParsed(m), FetchEnd, ImapEnd, Close, Timeout]).delivered == [m]
  {
    var evs := [MessageParsed(m), FetchEnd, ImapEnd, Close, Timeout];
    var s1 := Step(Init(true), evs[0]);
    assert s1.delivered == [m] && !s1.closed;
    assert Run(Init(true), evs) == Run(s1, evs[1..]);
    var s2 := Step(s1, FetchEnd);
    assert s2.closed && s2.outcome == Pending && s2.delivered == [m];
    assert evs[1..][1..] == [ImapEnd, Close, Timeout];
    assert Run(s1, evs[1..]) == Run(s2, [ImapEnd, Close, Timeout]);
    PendingAfterFetchEnd(s2, [ImapEnd, Close, Timeout]);
    DeliveredAfterClose(s2, [ImapEnd, Close, Timeout]);
  }

  /** Handlers other than a parsed message never touch what the callback received. */
  lemma {:induction false} DeliveredAfterClose(st: FetchState, evs: seq<Event>)
    requires forall i :: 0 <= i < |evs| ==> !evs[i].MessageParsed?
    ensures Run(st, evs).delivered == st.delivered
    decreases |evs|
  {
    if evs != [] {
      DeliveredAfterClose(Step(st, evs[0]), evs[1..]);
    }
  }

  /** With the fix, the fetch `end` on an open latch resolves with the collected list. */
  lemma FixedFetchEndSettles(st: FetchState)
    requires !st.closed && st.outcome == Pending
    ensures StepFixed(st, FetchEnd).closed && Value(StepFixed(st, FetchEnd)) == Some(st.emails)
  {
  }

  /** The same fetch of one message, fixed: the caller receives that message. */
  lemma FixedFetchSettles(m: InboundEmail)
    ensures Value(RunFixed(Init(true), [MessageParsed(m), FetchEnd, ImapEnd, Close, Timeout])) == Some([m])
  {
    var evs := [MessageParsed(m), FetchEnd, ImapEnd, Close, Timeout];
    var s1 := StepFixed(Init(true), evs[0]);
    assert s1.emails == [m] && !s1.closed;
    assert RunFixed(Init(true), evs) == RunFixed(s1, evs[1..]);
    var s2 := StepFixed(s1, FetchEnd);
    assert s2.outcome == ResolvedWithList && s2.emails == [m];
    assert evs[1..][1..] == [ImapEnd, Close, Timeout];
    assert RunFixed(s1, evs[1..]) == RunFixed(s2, [ImapEnd, Close, Timeout]);
    var rest := [ImapEnd, Close, Timeout];
    var s3 := StepFixed(s2, rest[0]);
    assert s3 == s2;
    assert rest[1..] == [Close, Timeout];
    var s4 := StepFixed(s3, Close);
    assert s4.emails == [m] && s4.outcome == ResolvedWithList;
    assert rest[1..][1..] == [Timeout];
    var s5 := StepFixed(s4, Timeout);
    assert s5 == s4;
    assert RunFixed(s5, []) == s5;
  }

  // ---------------------------------------------------------------------------
  // The handlers as methods over the shared state
  // ---------------------------------------------------------------------------

  /** The variables the handlers of one `fetchUnreadEmails` call share. */
  class FetchSession {
    var closed: bool
    var emails: seq<InboundEmail>
    var delivered: seq<InboundEmail>
    var outcome: Outcome
    var endRequested: bool
    var timerCleared: bool
    const hasCallback: bool

    function State(): FetchState
      reads this
    {
      FetchState(closed, emails, delivered, outcome, endRequested, timerCleared, hasCallback)
    }

    constructor (hasCallback: bool)
      ensures State() == Init(hasCallback)
    {
      this.hasCallback := hasCallback;
      closed := false;
      emails := [];
      delivered := [];
      outcome := Pending;
      endRequested := false;
      timerCleared := false;
    }

    /** `if (!connectionClosed) { connectionClosed = true; [imap.end();] settle }`. */
    method Shutdown(callsEnd: bool, v: Outcome)
      modifies this
      ensures State() == Latch(old(State()), callsEnd, v)
    {
      if !closed {
        closed := true;
        if callsEnd {
          endRequested := true;
        }
        if outcome == Pending {
          outcome := v;
        }
      }
    }

    method OnOpenBoxError()
      modifies this
      ensures State() == StepFixed(old(State()), OpenBoxError)
    {
      Shutdown(true, Rejected(OpenBoxFailed));
    }

    /** The search callback: an error, no unseen message, or the start of a fetch. */
    method OnSearchResult(failed: bool, count: nat)
      modifies this
      ensures failed ==> State() == StepFixed(old(State()), SearchError)
      ensures !failed && count == 0 ==> State() == StepFixed(old(State()), SearchEmpty)
      ensures !failed && count > 0 ==> State() == old(State())
    {
      if failed {
        Shutdown(true, Rejected(SearchFailed));
      } else if count == 0 {
        if !closed {
          closed := true;
          endRequested := true;
        }
        if outcome == Pending {
          outcome := ResolvedEmpty;
        }
      }
    }

    /** The parser callback for one message body. */
    method OnMessage(parsed: Option<InboundEmail>)
      modifies this
      ensures parsed.Some? ==> State() == StepFixed(old(State()), MessageParsed(parsed.value))
      ensures parsed.None? ==> State() == StepFixed(old(State()), ParseError)
    {
      if parsed.Some? {
        emails := emails + [parsed.value];
        if hasCallback {
          // the callback's own failure is caught and logged
          delivered := delivered + [parsed.value];
        }
      }
    }

    method OnFetchError()
      modifies this
      ensures State() == StepFixed(old(State()), FetchError)
    {
      Shutdown(true, Rejected(FetchFailed));
    }

    method OnFetchEnd()
      modifies this
      ensures State() == StepFixed(old(State()), FetchEnd)
    {
      Shutdown(true, ResolvedWithList);
    }

    method OnImapError(reset: bool)
      modifies this
      ensures State() == StepFixed(old(State()), ImapError(reset))
    {
      if reset {
        Shutdown(false, ResolvedWithList);
      } else {
        Shutdown(false, Rejected(ConnectionFailed));
      }
    }

    method OnImapEnd()
      modifies this
      ensures State() == StepFixed(old(State()), ImapEnd)
    {
      Shutdown(false, ResolvedWithList);
    }

    method OnTimeout()
      modifies this
      ensures State() == StepFixed(old(State()), Timeout)
    {
      if !timerCleared {
        Shutdown(true, ResolvedWithList);
      }
    }

    method OnClose()
      modifies this
      ensures State() == StepFixed(old(State()), Close)
    {
      timerCleared := true;
    }
  }
}
