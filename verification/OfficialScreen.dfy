/**
 The official-data screen of the discovery panel
 (frontend/src/components/DiscoveryPanel.tsx): filters are edited while requests are in flight,
 and a sequence counter decides which reply may reach the screen.

 `toNumber` stands for Number(raw) together with Number.isFinite: None is "not a finite number".
 */
module OfficialScreen {
  import opened Wrappers
  import opened Text

  datatype Key = PeMax | PbMax | DividendYieldMin | RevenueYoyMin | InstitutionalNetMin

  const KEYS: seq<Key> := [PeMax, PbMax, DividendYieldMin, RevenueYoyMin, InstitutionalNetMin]

  /** One text per key, in the order of KEYS. */
  datatype Filters = Filters(peMax: string, pbMax: string, dividendYieldMin: string,
                             revenueYoyMin: string, institutionalNetMin: string)
  {
    function Get(k: Key): string {
      match k
      case PeMax => peMax
      case PbMax => pbMax
      case DividendYieldMin => dividendYieldMin
      case RevenueYoyMin => revenueYoyMin
      case InstitutionalNetMin => institutionalNetMin
    }

    function Set(k: Key, value: string): Filters {
      match k
      case PeMax => this.(peMax := value)
      case PbMax => this.(pbMax := value)
      case DividendYieldMin => this.(dividendYieldMin := value)
      case RevenueYoyMin => this.(revenueYoyMin := value)
      case InstitutionalNetMin => this.(institutionalNetMin := value)
    }
  }

  const NO_FILTERS := Filters("", "", "", "", "")

  type Request = map<Key, real>

  const NOT_A_NUMBER := "條件必須是有效數字。"
  const NO_CONDITION := "請至少填入一項官方資料條件。"

  // ---- The request built from the filters ------------------------------------------------------

  predicate Filled(filters: Filters, k: Key) {
    Trim(filters.Get(k)) != ""
  }

  /** A filter is filled iff its text has something besides white space. */
  lemma {:induction false} FilledMeans(filters: Filters, k: Key)
    ensures Filled(filters, k) <==> exists i :: 0 <= i < |filters.Get(k)| && !IsSpace(filters.Get(k)[i])
  {
    TrimEmptyIff(filters.Get(k));
  }

  /** The numbers of all filled filters, or None if one of them is not a number. */
  function RequestOf(toNumber: string -> Option<real>, filters: Filters): Option<Request> {
    if forall k: Key :: Filled(filters, k) ==> toNumber(filters.Get(k)).Some?
    then Some(map k: Key | Filled(filters, k) :: toNumber(filters.Get(k)).value)
    else None
  }

  /** The loop over the filters, which leaves at the first value that is not a number. */
  method BuildRequest(toNumber: string -> Option<real>, filters: Filters) returns (request: Option<Request>)
    ensures request == RequestOf(toNumber, filters)
  {
    var built: Request := map[];
    for i := 0 to |KEYS|
      invariant forall j | 0 <= j < i :: Filled(filters, KEYS[j]) ==> toNumber(filters.Get(KEYS[j])).Some?
      invariant forall k: Key :: k in built <==> k in KEYS[..i] && Filled(filters, k)
      invariant forall k: Key :: k in built ==> toNumber(filters.Get(k)).Some? && built[k] == toNumber(filters.Get(k)).value
    {
      var raw := filters.Get(KEYS[i]);
      if Trim(raw) == "" {
        continue;
      }
      var value := toNumber(raw);
      if value.None? {
        assert Filled(filters, KEYS[i]);
        return None;
      }
      built := built[KEYS[i] := value.value];
    }
    EveryKeyListed();
    assert built == map k: Key | Filled(filters, k) :: toNumber(filters.Get(k)).value;
    return Some(built);
  }

  lemma {:induction false} EveryKeyListed()
    ensures KEYS[..|KEYS|] == KEYS
    ensures forall k: Key :: k in KEYS
  {
    forall k: Key ensures k in KEYS {
      match k {
        case PeMax => assert KEYS[0] == k;
        case PbMax => assert KEYS[1] == k;
        case DividendYieldMin => assert KEYS[2] == k;
        case RevenueYoyMin => assert KEYS[3] == k;
        case InstitutionalNetMin => assert KEYS[4] == k;
      }
    }
  }

  // ---- Steps -----------------------------------------------------------------------------------

  /** A response on the screen, with the request it answers. */
  datatype Shown = Shown(request: Request, response: string)

  datatype State = State(sequence: nat, filters: Filters, market: string, open: bool, loading: bool,
                         error: string, result: Option<Shown>, inFlight: map<nat, Request>)

  datatype Event =
    | Edit(key: Key, value: string)
    | Toggle
    | ChangeMarket(market: string)
    | Run
    | Reply(to: nat, response: string)
    | Failure(to: nat, message: string)

  function Refuse(s: State, message: string): State {
    s.(sequence := s.sequence + 1, error := message, loading := false, result := None)
  }

  function Step(toNumber: string -> Option<real>, s: State, e: Event): State {
    match e
    case Edit(key, value) =>
      s.(sequence := s.sequence + 1, loading := false, error := "", result := None, filters := s.filters.Set(key, value))
    case Toggle => s.(sequence := s.sequence + 1, loading := false, open := !s.open, error := "")
    case ChangeMarket(market) =>
      s.(sequence := s.sequence + 1, loading := false, result := None, market := market)
    case Run =>
      var request := RequestOf(toNumber, s.filters);
      if request.None? then Refuse(s, NOT_A_NUMBER)
      else if request.value == map[] then Refuse(s, NO_CONDITION)
      else s.(sequence := s.sequence + 1, loading := true, error := "",
              inFlight := s.inFlight[s.sequence + 1 := request.value])
    case Reply(n, response) =>
      if n !in s.inFlight then s else
      var t := s.(inFlight := s.inFlight - {n});
      if n != s.sequence then t else t.(result := Some(Shown(s.inFlight[n], response)), loading := false)
    case Failure(n, message) =>
      if n !in s.inFlight then s else
      var t := s.(inFlight := s.inFlight - {n});
      if n != s.sequence then t else t.(error := message, result := None, loading := false)
  }

  function Exec(toNumber: string -> Option<real>, s: State, events: seq<Event>): State
    decreases |events|
  {
    if events == [] then s else Exec(toNumber, Step(toNumber, s, events[0]), events[1..])
  }

  function Initial(market: string): State {
    State(1, NO_FILTERS, market, false, false, "", None, map[])
  }

  // ---- What every order of edits and replies keeps -----------------------------------------------

  ghost predicate Inv(toNumber: string -> Option<real>, s: State) {
    && (forall n | n in s.inFlight :: n <= s.sequence)
    && (s.loading <==> s.sequence in s.inFlight)
    && (s.loading ==> RequestOf(toNumber, s.filters) == Some(s.inFlight[s.sequence]))
    && (s.result.Some? ==> RequestOf(toNumber, s.filters) == Some(s.result.value.request))
    && (s.result.Some? ==> s.result.value.request != map[])
    && (s.loading ==> s.inFlight[s.sequence] != map[])
    && (s.loading || s.result.Some? ==> s.error == "")
  }

  lemma {:induction false} StepKeepsInv(toNumber: string -> Option<real>, s: State, e: Event)
    requires Inv(toNumber, s)
    ensures Inv(toNumber, Step(toNumber, s, e))
  {}

  lemma {:induction false} ExecKeepsInv(toNumber: string -> Option<real>, s: State, events: seq<Event>)
    requires Inv(toNumber, s)
    ensures Inv(toNumber, Exec(toNumber, s, events))
    decreases |events|
  {
    if events == [] {
    } else {
      StepKeepsInv(toNumber, s, events[0]);
      hide Step, Inv;
      ExecKeepsInv(toNumber, Step(toNumber, s, events[0]), events[1..]);
    }
  }

  /**
   Whatever the order of edits, toggles, market changes, runs and replies: a shown result
   answers exactly the current filters, at least one of which is filled and all of which are
   numbers; the panel is loading iff a request with the current sequence number is in flight;
   and no error stands beside a result.
   */
  lemma {:induction false} ScreenMatchesFilters(toNumber: string -> Option<real>, market: string, events: seq<Event>)
    ensures var s := Exec(toNumber, Initial(market), events);
            && (s.result.Some? ==>
                  && (forall k: Key :: k in s.result.value.request <==> Filled(s.filters, k))
                  && (forall k: Key :: Filled(s.filters, k) ==>
                        toNumber(s.filters.Get(k)) == Some(s.result.value.request[k]))
                  && (exists k: Key :: Filled(s.filters, k))
                  && s.error == "")
            && (s.loading <==> s.sequence in s.inFlight)
  {
    ExecKeepsInv(toNumber, Initial(market), events);
    var s := Exec(toNumber, Initial(market), events);
    if s.result.Some? {
      var k: Key :| k in s.result.value.request;
      assert Filled(s.filters, k);
    }
  }

  // ---- The latest run wins ------------------------------------------------------------------------

  predicate IsReply(e: Event) {
    e.Reply? || e.Failure?
  }

  /** The first reply to request n in a history of replies. */
  function FirstReplyTo(events: seq<Event>, n: nat): Option<Event>
    requires forall i | 0 <= i < |events| :: IsReply(events[i])
  {
    if events == [] then None
    else
      assert IsReply(events[0]);
      if events[0].to == n then Some(events[0]) else FirstReplyTo(events[1..], n)
  }

  /** What the screen shows once `first` is the first reply to the current request, if any came. */
  ghost predicate Decided(s: State, t: State, first: Option<Event>) {
    && t.sequence == s.sequence && t.filters == s.filters
    && (if !s.loading || first.None? then t.loading == s.loading && t.result == s.result && t.error == s.error
        else
          && !t.loading
          && s.sequence in s.inFlight
          && (first.value.Reply? ==>
                t.result == Some(Shown(s.inFlight[s.sequence], first.value.response)) && t.error == s.error)
          && (first.value.Failure? ==> t.result == None && t.error == first.value.message))
  }

  lemma {:induction false} ReplyStep(toNumber: string -> Option<real>, s: State, e: Event)
    requires Inv(toNumber, s) && IsReply(e)
    ensures var t := Step(toNumber, s, e);
            && t.sequence == s.sequence && t.filters == s.filters
            && (e.to != s.sequence || !s.loading ==>
                  t.loading == s.loading && t.result == s.result && t.error == s.error
                  && (s.loading ==> s.sequence in t.inFlight && t.inFlight[s.sequence] == s.inFlight[s.sequence]))
            && (e.to == s.sequence ==> !t.loading && Decided(s, t, Some(e)))
  {}

  lemma {:induction false} RepliesDecide(toNumber: string -> Option<real>, s: State, events: seq<Event>)
    requires Inv(toNumber, s)
    requires forall i | 0 <= i < |events| :: IsReply(events[i])
    ensures Decided(s, Exec(toNumber, s, events), FirstReplyTo(events, s.sequence))
    decreases |events|
  {
    if events == [] {
    } else {
      var t := Step(toNumber, s, events[0]);
      StepKeepsInv(toNumber, s, events[0]);
      ReplyStep(toNumber, s, events[0]);
      RepliesDecide(toNumber, t, events[1..]);
      assert s.loading ==> s.sequence in s.inFlight;
      hide Step, Inv;
    }
  }

  /**
   After a run with valid filters, whatever replies to this and to earlier requests arrive and
   in whatever order, the screen waits for the run's own first reply and then shows exactly it.
   */
  lemma {:induction false} LatestRunWins(toNumber: string -> Option<real>, market: string, before: seq<Event>, replies: seq<Event>)
    requires forall i | 0 <= i < |replies| :: IsReply(replies[i])
    requires var s := Exec(toNumber, Initial(market), before); RequestOf(toNumber, s.filters) !in {None, Some(map[])}
    ensures var s := Exec(toNumber, Initial(market), before);
            var t := Exec(toNumber, Step(toNumber, s, Run), replies);
            var own := FirstReplyTo(replies, s.sequence + 1);
            && (own.None? ==> t.loading && t.error == "")
            && (own.Some? ==> !t.loading)
            && (own.Some? && own.value.Reply? ==>
                  t.result == Some(Shown(RequestOf(toNumber, s.filters).value, own.value.response)) && t.error == "")
            && (own.Some? && own.value.Failure? ==> t.result == None && t.error == own.value.message)
  {
    ExecKeepsInv(toNumber, Initial(market), before);
    var s := Exec(toNumber, Initial(market), before);
    StepKeepsInv(toNumber, s, Run);
    var r := Step(toNumber, s, Run);
    assert r.loading && r.error == "" && r.inFlight[r.sequence] == RequestOf(toNumber, s.filters).value;
    RepliesDecide(toNumber, r, replies);
    hide Step, Inv, Exec;
  }

  // ---- What the events do over a history ---------------------------------------------------------------

  lemma {:induction false} ExecSnoc(toNumber: string -> Option<real>, s: State, events: seq<Event>, e: Event)
    ensures Exec(toNumber, s, events + [e]) == Step(toNumber, Exec(toNumber, s, events), e)
    decreases |events|
  {
    if events == [] {
      assert Exec(toNumber, s, [e]) == Exec(toNumber, Step(toNumber, s, e), []);
    } else {
      ExecSnoc(toNumber, Step(toNumber, s, events[0]), events[1..], e);
      assert (events + [e])[1..] == events[1..] + [e];
    }
  }

  /** The value of the last edit of a filter. */
  function LastEdit(events: seq<Event>, k: Key): string {
    if events == [] then ""
    else
      var e := events[|events| - 1];
      if e.Edit? && e.key == k then e.value else LastEdit(events[..|events| - 1], k)
  }

  function LastMarket(market: string, events: seq<Event>): string {
    if events == [] then market
    else
      var e := events[|events| - 1];
      if e.ChangeMarket? then e.market else LastMarket(market, events[..|events| - 1])
  }

  function Toggles(events: seq<Event>): nat {
    if events == [] then 0
    else Toggles(events[..|events| - 1]) + if events[|events| - 1].Toggle? then 1 else 0
  }

  lemma {:induction false} InputsOfStep(toNumber: string -> Option<real>, s: State, e: Event)
    ensures var t := Step(toNumber, s, e);
            && (forall k: Key :: t.filters.Get(k) == if e.Edit? && e.key == k then e.value else s.filters.Get(k))
            && t.market == (if e.ChangeMarket? then e.market else s.market)
            && t.open == (if e.Toggle? then !s.open else s.open)
  {
    hide RequestOf;
  }

  /** Every filter holds what was last typed into it, the market is the last one chosen, and every toggle flips the panel. */
  lemma {:induction false} HistoryDecidesInputs(toNumber: string -> Option<real>, market: string, events: seq<Event>)
    ensures var s := Exec(toNumber, Initial(market), events);
            && (forall k: Key :: s.filters.Get(k) == LastEdit(events, k))
            && s.market == LastMarket(market, events)
            && (s.open <==> Toggles(events) % 2 == 1)
  {
    if events == [] {
    } else {
      var init, e := events[..|events| - 1], events[|events| - 1];
      HistoryDecidesInputs(toNumber, market, init);
      ExecSnoc(toNumber, Initial(market), init, e);
      InputsOfStep(toNumber, Exec(toNumber, Initial(market), init), e);
      assert events == init + [e];
      hide Exec, Step;
    }
  }

  /** Editing a filter or changing the market takes any result away, and nothing is shown or loaded until the next run. */
  lemma {:induction false} NothingUntilRun(toNumber: string -> Option<real>, s: State, e: Event, after: seq<Event>)
    requires Inv(toNumber, s) && (e.Edit? || e.ChangeMarket?) && Run !in after
    ensures var t := Exec(toNumber, Step(toNumber, s, e), after); t.result.None? && !t.loading
  {
    StepKeepsInv(toNumber, s, e);
    QuietStaysQuiet(toNumber, Step(toNumber, s, e), after);
  }

  lemma {:induction false} QuietStep(toNumber: string -> Option<real>, s: State, e: Event)
    requires Inv(toNumber, s) && s.result.None? && !s.loading && !e.Run?
    ensures var t := Step(toNumber, s, e); t.result.None? && !t.loading
  {
    hide RequestOf;
  }

  lemma {:induction false} QuietStaysQuiet(toNumber: string -> Option<real>, s: State, events: seq<Event>)
    requires Inv(toNumber, s) && s.result.None? && !s.loading && Run !in events
    ensures var t := Exec(toNumber, s, events); t.result.None? && !t.loading
    decreases |events|
  {
    if events == [] {
    } else {
      assert events[0] in events;
      StepKeepsInv(toNumber, s, events[0]);
      QuietStep(toNumber, s, events[0]);
      hide Step, Inv;
      QuietStaysQuiet(toNumber, Step(toNumber, s, events[0]), events[1..]);
    }
  }

  lemma {:induction false} RequestMeans(toNumber: string -> Option<real>, filters: Filters)
    ensures var request := RequestOf(toNumber, filters);
            && (request.None? <==> exists k: Key :: Filled(filters, k) && toNumber(filters.Get(k)).None?)
            && (request == Some(map[]) <==> forall k: Key :: !Filled(filters, k))
            && (request.Some? ==>
                  forall k: Key :: (k in request.value <==> Filled(filters, k))
                                   && (Filled(filters, k) ==> toNumber(filters.Get(k)) == Some(request.value[k])))
  {
    var request := RequestOf(toNumber, filters);
    if request == Some(map[]) {
      forall k: Key ensures !Filled(filters, k) {
        assert k !in request.value;
      }
    } else if request.Some? {
      assert request.value.Keys != {};
      var k: Key :| k in request.value;
    }
  }

  /** A run with a filter that is no number, or without any filter, is refused with its reason; any other is sent. */
  lemma {:induction false} RunMeans(toNumber: string -> Option<real>, s: State)
    ensures var t := Step(toNumber, s, Run);
            var refused := exists k: Key :: Filled(s.filters, k) && toNumber(s.filters.Get(k)).None?;
            var empty := forall k: Key :: !Filled(s.filters, k);
            && (refused ==> t.error == "條件必須是有效數字。")
            && (empty ==> t.error == "請至少填入一項官方資料條件。")
            && (refused || empty ==> t.result.None? && !t.loading && t.inFlight == s.inFlight)
            && (!refused && !empty ==>
                  && t.error == "" && t.loading && t.result == s.result && t.sequence in t.inFlight
                  && (forall k: Key :: k in t.inFlight[t.sequence] <==> Filled(s.filters, k))
                  && (forall k: Key :: Filled(s.filters, k) ==>
                        toNumber(s.filters.Get(k)) == Some(t.inFlight[t.sequence][k])))
            && t == s.(sequence := s.sequence + 1, error := t.error, result := t.result, loading := t.loading,
                       inFlight := t.inFlight)
  {
    RequestMeans(toNumber, s.filters);
    hide RequestOf, Filled;
  }

  /** A toggle stops waiting and clears the error, an edit also the result, a market change the result only. */
  lemma {:induction false} InputMeans(toNumber: string -> Option<real>, s: State, e: Event)
    ensures var t := Step(toNumber, s, e);
            && (e.Toggle? ==> t.error == "" && t.result == s.result)
            && (e.Edit? ==> t.error == "" && t.result.None?)
            && (e.ChangeMarket? ==> t.error == s.error && t.result.None?)
            && (e.Toggle? || e.Edit? || e.ChangeMarket? ==>
                  !t.loading && t.inFlight == s.inFlight && t.sequence == s.sequence + 1)
  {}

  // ---- The panel ------------------------------------------------------------------------------------

  class OfficialScreenPanel {
    const toNumber: string -> Option<real>
    var sequence: nat
    var filters: Filters
    var market: string
    var open: bool
    var loading: bool
    var error: string
    var result: Option<Shown>
    var inFlight: map<nat, Request>

    function Abs(): State
      reads this
    {
      State(sequence, filters, market, open, loading, error, result, inFlight)
    }

    /** The state after the first render, whose market effect has run once. */
    constructor (toNumber: string -> Option<real>, market: string)
      ensures this.toNumber == toNumber && Abs() == Initial(market) && Inv(toNumber, Abs())
      ensures !open && !loading && error == "" && result.None? && inFlight == map[]
    {
      this.toNumber := toNumber;
      this.market := market;
      sequence, filters, open, loading, error, result, inFlight := 1, NO_FILTERS, false, false, "", None, map[];
    }

    /** runOfficialScreen up to its await. */
    method RunOfficialScreen()
      requires Inv(toNumber, Abs())
      modifies this
      ensures Inv(toNumber, Abs()) && Abs() == Step(toNumber, old(Abs()), Run)
    {
      sequence := sequence + 1;
      var request := BuildRequest(toNumber, filters);
      if request.None? {
        error := NOT_A_NUMBER;
        loading := false;
        result := None;
        return;
      }
      if |request.value| == 0 {
        error := NO_CONDITION;
        loading := false;
        result := None;
        return;
      }
      loading := true;
      error := "";
      inFlight := inFlight[sequence := request.value];
    }

    /** runOfficialScreen after its await. */
    method ReceiveReply(n: nat, response: string)
      requires Inv(toNumber, Abs()) && n in inFlight
      modifies this
      ensures Inv(toNumber, Abs()) && Abs() == Step(toNumber, old(Abs()), Reply(n, response))
    {
      var request := inFlight[n];
      inFlight := inFlight - {n};
      if n != sequence {
        return;
      }
      result := Some(Shown(request, response));
      loading := false;
    }

    method ReceiveFailure(n: nat, message: string)
      requires Inv(toNumber, Abs()) && n in inFlight
      modifies this
      ensures Inv(toNumber, Abs()) && Abs() == Step(toNumber, old(Abs()), Failure(n, message))
    {
      inFlight := inFlight - {n};
      if n != sequence {
        return;
      }
      error := message;
      result := None;
      loading := false;
    }

    method ToggleOfficialScreen()
      requires Inv(toNumber, Abs())
      modifies this
      ensures Inv(toNumber, Abs()) && Abs() == Step(toNumber, old(Abs()), Toggle)
    {
      sequence := sequence + 1;
      loading := false;
      open := !open;
      error := "";
    }

    method UpdateOfficialFilter(key: Key, value: string)
      requires Inv(toNumber, Abs())
      modifies this
      ensures Inv(toNumber, Abs()) && Abs() == Step(toNumber, old(Abs()), Edit(key, value))
    {
      sequence := sequence + 1;
      loading := false;
      error := "";
      result := None;
      filters := filters.Set(key, value);
    }

    method SetMarket(market: string)
      requires Inv(toNumber, Abs())
      modifies this
      ensures Inv(toNumber, Abs()) && Abs() == Step(toNumber, old(Abs()), ChangeMarket(market))
    {
      this.market := market;
      sequence := sequence + 1;
      loading := false;
      result := None;
    }
  }
}
