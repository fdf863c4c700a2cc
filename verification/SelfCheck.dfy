/**
 The self-check dialog (frontend/src/components/SelfCheckModal.tsx): a run fetches a list of
 checks and then lets up to four cooperative workers probe them one by one.  The workers share
 one cursor, write their results into the shared rows, and are cancelled by bumping a run id.

 Every step between two awaits is one event.  `Claim` and `Answer` are separate events although
 the program runs an answer and the following claim without a pause, so every real schedule is
 one of the schedules considered here.
 */
module SelfCheck {
  import opened Wrappers

  const CONCURRENCY: nat := 4
  const NOTHING_RETURNED := "未返回檢查結果"
  const RETRY_HINT := "檢查請求失敗,稍後重試"

  datatype Outcome = Ok | Slow | Fail

  datatype RowStatus = Checking | Known(outcome: Outcome)

  datatype Item = Item(category: string, key: string, name: string, group: Option<string>)

  datatype Row = Row(item: Item, status: RowStatus, latency: int,
                     error: Option<string>, hint: string, note: Option<string>)

  /** What a probe request comes back with: a checked item, an empty list, or an exception. */
  datatype Reply =
    | Probed(outcome: Outcome, latency: int, error: Option<string>, hint: string, note: Option<string>)
    | NothingReturned
    | Rejected(message: string)

  datatype Worker = Ready | Waiting(index: nat) | Exited

  /**
   The closure of one call of runCheck.  `sent` and `answered` record the requests sent and the
   replies received; no step reads them.
   */
  datatype Run =
    | Listing
    | Abandoned(error: Option<string>)
    | Pool(items: seq<Item>, cursor: nat, workers: seq<Worker>,
           sent: seq<nat>, answered: map<nat, Reply>, joined: bool)

  datatype State = State(open: bool, runId: nat, running: bool, listError: string,
                         rows: seq<Row>, runs: map<nat, Run>)

  datatype Event =
    | Open
    | Close
    | Rerun
    | ListReply(run: nat, items: seq<Item>)
    | ListFailed(run: nat, message: string)
    | Claim(run: nat, worker: nat)
    | Answer(run: nat, worker: nat, reply: Reply)
    | Join(run: nat)

  // ---- Steps --------------------------------------------------------------------------------

  function Skeleton(items: seq<Item>): seq<Row> {
    seq(|items|, i requires 0 <= i < |items| => Row(items[i], Checking, 0, None, "", None))
  }

  function Patch(row: Row, reply: Reply): Row {
    match reply
    case Probed(outcome, latency, error, hint, note) => Row(row.item, Known(outcome), latency, error, hint, note)
    case NothingReturned => row.(status := Known(Fail), error := Some(NOTHING_RETURNED), hint := RETRY_HINT)
    case Rejected(message) => row.(status := Known(Fail), error := Some(message), hint := RETRY_HINT)
  }

  function Merge(rows: seq<Row>, key: string, reply: Reply): seq<Row> {
    seq(|rows|, i requires 0 <= i < |rows| => if rows[i].item.key == key then Patch(rows[i], reply) else rows[i])
  }

  predicate AllExited(workers: seq<Worker>) {
    forall w | 0 <= w < |workers| :: workers[w].Exited?
  }

  function NewPool(items: seq<Item>): Run {
    Pool(items, 0, seq(Min(CONCURRENCY, |items|), _ => Ready), [], map[], items == [])
  }

  predicate Enabled(s: State, e: Event) {
    match e
    case Open => !s.open
    case Close => s.open
    case Rerun => s.open
    case ListReply(r, _) => r in s.runs && s.runs[r].Listing?
    case ListFailed(r, _) => r in s.runs && s.runs[r].Listing?
    case Claim(r, w) => r in s.runs && s.runs[r].Pool? && w < |s.runs[r].workers| && s.runs[r].workers[w].Ready?
    case Answer(r, w, _) => r in s.runs && s.runs[r].Pool? && w < |s.runs[r].workers| && s.runs[r].workers[w].Waiting?
                            && s.runs[r].workers[w].index < |s.runs[r].items|
    case Join(r) => r in s.runs && s.runs[r].Pool? && !s.runs[r].joined && AllExited(s.runs[r].workers)
  }

  function StartRun(s: State): State {
    State(true, s.runId + 1, true, "", [], s.runs[s.runId + 1 := Listing])
  }

  /** The claim of worker w in run p; `current` says whether the run id still matches. */
  function ClaimNext(p: Run, w: nat, current: bool): Run
    requires p.Pool? && w < |p.workers|
  {
    if !current then p.(workers := p.workers[w := Exited])
    else if p.cursor >= |p.items| then p.(cursor := p.cursor + 1, workers := p.workers[w := Exited])
    else p.(cursor := p.cursor + 1, workers := p.workers[w := Waiting(p.cursor)], sent := p.sent + [p.cursor])
  }

  function TakeAnswer(p: Run, w: nat, reply: Reply): Run
    requires p.Pool? && w < |p.workers| && p.workers[w].Waiting?
  {
    p.(workers := p.workers[w := Ready], answered := p.answered[p.workers[w].index := reply])
  }

  /** One event; an event that cannot happen in s leaves s as it is. */
  function Step(s: State, e: Event): State {
    if !Enabled(s, e) then s else
    match e
    case Open => StartRun(s)
    case Rerun => StartRun(s)
    case Close => s.(open := false, runId := s.runId + 1)
    case ListReply(r, items) =>
      if r != s.runId then s.(runs := s.runs[r := Abandoned(None)])
      else s.(rows := Skeleton(items), running := items != [], runs := s.runs[r := NewPool(items)])
    case ListFailed(r, message) =>
      if r != s.runId then s.(runs := s.runs[r := Abandoned(None)])
      else s.(listError := message, running := false, runs := s.runs[r := Abandoned(Some(message))])
    case Claim(r, w) => s.(runs := s.runs[r := ClaimNext(s.runs[r], w, r == s.runId)])
    case Answer(r, w, reply) =>
      var p := s.runs[r];
      var t := s.(runs := s.runs[r := TakeAnswer(p, w, reply)]);
      if r != s.runId then t else t.(rows := Merge(s.rows, p.items[p.workers[w].index].key, reply))
    case Join(r) =>
      var t := s.(runs := s.runs[r := s.runs[r].(joined := true)]);
      if r != s.runId then t else t.(running := false)
  }

  function Exec(s: State, events: seq<Event>): State
    decreases |events|
  {
    if events == [] then s else Exec(Step(s, events[0]), events[1..])
  }

  const INITIAL := State(false, 0, false, "", [], map[])

  // ---- Invariant ----------------------------------------------------------------------------

  predicate Waits(p: Run, w: nat, i: nat) {
    p.Pool? && w < |p.workers| && p.workers[w] == Waiting(i)
  }

  ghost predicate InFlight(p: Run, i: nat) {
    exists w: nat :: Waits(p, w, i)
  }

  function Claimed(p: Run): nat
    requires p.Pool?
  {
    Min(p.cursor, |p.items|)
  }

  /** How many requests a worker has in flight, and how many steps it still owes to its own loop. */
  function Requests(w: Worker): nat {
    if w.Waiting? then 1 else 0
  }

  function Debt(w: Worker): nat {
    match w case Ready => 1 case Waiting(_) => 2 case Exited => 0
  }

  function Total(workers: seq<Worker>, weight: Worker -> nat): nat {
    if workers == [] then 0 else weight(workers[0]) + Total(workers[1..], weight)
  }

  lemma {:induction false} TotalUpdate(workers: seq<Worker>, weight: Worker -> nat, w: nat, x: Worker)
    requires w < |workers|
    ensures Total(workers[w := x], weight) + weight(workers[w]) == Total(workers, weight) + weight(x)
  {
    if w > 0 {
      assert workers[w := x][1..] == workers[1..][w - 1 := x];
      TotalUpdate(workers[1..], weight, w - 1, x);
    } else {
      assert workers[w := x][1..] == workers[1..];
    }
  }

  lemma {:induction false} TotalSame(workers: seq<Worker>, weight: Worker -> nat, x: Worker)
    requires forall w | 0 <= w < |workers| :: workers[w] == x
    ensures Total(workers, weight) == |workers| * weight(x)
  {
    if workers == [] {
    } else {
      TotalSame(workers[1..], weight, x);
    }
  }

  lemma {:induction false} TotalAtMost(workers: seq<Worker>, weight: Worker -> nat, most: nat)
    requires forall x :: weight(x) <= most
    ensures Total(workers, weight) <= |workers| * most
  {
    if workers == [] {
    } else {
      TotalAtMost(workers[1..], weight, most);
    }
  }

  predicate DistinctKeys(items: seq<Item>) {
    forall i, j | 0 <= i < j < |items| :: items[i].key != items[j].key
  }

  /** The requests of a run: what was claimed is either answered or waited for by one worker. */
  ghost predicate PoolInv(p: Run) {
    p.Pool? ==>
      && |p.workers| == Min(CONCURRENCY, |p.items|)
      && p.sent == seq(Claimed(p), i => i)
      && (forall w: nat, i: nat :: Waits(p, w, i) ==> i < Claimed(p) && i !in p.answered)
      && (forall v: nat, w: nat, i: nat :: Waits(p, v, i) && Waits(p, w, i) ==> v == w)
      && (forall i :: i in p.answered ==> i < Claimed(p))
      && (forall i: nat :: i < Claimed(p) && i !in p.answered ==> InFlight(p, i))
      && |p.answered| + Total(p.workers, Requests) == Claimed(p)
      && (p.joined ==> AllExited(p.workers))
  }

  /** Some reply for row j's key has been received. */
  ghost predicate Covered(p: Run, j: nat)
    requires p.Pool? && j < |p.items|
  {
    exists i: nat :: i in p.answered && i < |p.items| && p.items[i].key == p.items[j].key
  }

  function ExpectedRow(p: Run, j: nat): Row
    requires p.Pool? && j < |p.items|
  {
    var blank := Row(p.items[j], Checking, 0, None, "", None);
    if j in p.answered then Patch(blank, p.answered[j]) else blank
  }

  ghost predicate RowsInv(p: Run, rows: seq<Row>) {
    p.Pool? ==>
      && |rows| == |p.items|
      && (forall j: nat | j < |rows| :: rows[j].item == p.items[j])
      && (forall j: nat | j < |rows| :: rows[j].status.Checking? <==> !Covered(p, j))
      && (DistinctKeys(p.items) ==> forall j: nat | j < |rows| :: rows[j] == ExpectedRow(p, j))
  }

  predicate Live(p: Run) {
    p.Listing? || (p.Pool? && !p.joined)
  }

  /** The current run: only it owns the screen, and its workers leave only when nothing is left. */
  ghost predicate CurrentInv(p: Run, s: State) {
    && s.running == Live(p)
    && (p.Listing? ==> s.rows == [] && s.listError == "")
    && (p.Abandoned? ==> s.rows == [] && p.error == Some(s.listError))
    && (p.Pool? ==> s.listError == "")
    && RowsInv(p, s.rows)
    && (p.Pool? ==> forall w | 0 <= w < |p.workers| :: p.workers[w].Exited? ==> p.cursor >= |p.items|)
  }

  ghost predicate Inv(s: State) {
    && (forall r | r in s.runs :: r <= s.runId)
    && (s.open <==> s.runId in s.runs)
    && (forall r | r in s.runs :: PoolInv(s.runs[r]))
    && (s.runId in s.runs ==> CurrentInv(s.runs[s.runId], s))
  }

  lemma {:induction false} ClaimKeepsPool(p: Run, w: nat, current: bool)
    requires p.Pool? && PoolInv(p) && w < |p.workers| && p.workers[w].Ready?
    ensures PoolInv(ClaimNext(p, w, current))
  {
    var q := ClaimNext(p, w, current);
    TotalUpdate(p.workers, Requests, w, q.workers[w]);
    forall v: nat, i: nat ensures Waits(q, v, i) <==> (if v == w then q.workers[w] == Waiting(i) else Waits(p, v, i)) {}
    forall i: nat | i < Claimed(q) && i !in q.answered ensures InFlight(q, i) {
      if i < Claimed(p) {
        var v: nat :| Waits(p, v, i);
        assert Waits(q, v, i);
      } else {
        assert Waits(q, w, i);
      }
    }
  }

  lemma {:induction false} AnswerKeepsPool(p: Run, w: nat, reply: Reply)
    requires p.Pool? && PoolInv(p) && w < |p.workers| && p.workers[w].Waiting?
    ensures PoolInv(TakeAnswer(p, w, reply))
  {
    var q := TakeAnswer(p, w, reply);
    assert Waits(p, w, p.workers[w].index);
    TotalUpdate(p.workers, Requests, w, Ready);
    forall v: nat, i: nat ensures Waits(q, v, i) <==> v != w && Waits(p, v, i) {}
    forall i: nat | i < Claimed(q) && i !in q.answered ensures InFlight(q, i) {
      var v: nat :| Waits(p, v, i);
      assert Waits(q, v, i);
    }
  }

  lemma {:induction false} AnswerKeepsRows(p: Run, rows: seq<Row>, w: nat, reply: Reply)
    requires p.Pool? && PoolInv(p) && RowsInv(p, rows) && w < |p.workers| && p.workers[w].Waiting?
    requires p.workers[w].index < |p.items|
    ensures RowsInv(TakeAnswer(p, w, reply), Merge(rows, p.items[p.workers[w].index].key, reply))
  {
    var k := p.workers[w].index;
    var q, after := TakeAnswer(p, w, reply), Merge(rows, p.items[k].key, reply);
    assert Waits(p, w, k);
    forall j: nat | j < |rows| ensures after[j].status.Checking? <==> !Covered(q, j) {
      if p.items[j].key == p.items[k].key {
        assert k in q.answered;
      } else if Covered(p, j) {
        var i: nat :| i in p.answered && i < |p.items| && p.items[i].key == p.items[j].key;
        assert i in q.answered;
      }
    }
    if DistinctKeys(p.items) {
      forall j: nat | j < |rows| ensures after[j] == ExpectedRow(q, j) {
        assert (p.items[j].key == p.items[k].key) == (j == k);
        assert rows[j] == ExpectedRow(p, j);
      }
    }
  }

  lemma {:induction false} NewPoolFresh(items: seq<Item>)
    ensures PoolInv(NewPool(items))
    ensures RowsInv(NewPool(items), Skeleton(items))
  {
    TotalSame(NewPool(items).workers, Requests, Ready);
  }

  /** Replacing one run keeps the invariant; for the current run the screen must fit it. */
  lemma {:induction false} ReplaceRunKeepsInv(s: State, t: State, r: nat)
    requires Inv(s) && r in s.runs && r in t.runs
    requires t.open == s.open && t.runId == s.runId && t.runs == s.runs[r := t.runs[r]]
    requires PoolInv(t.runs[r])
    requires if r == s.runId then CurrentInv(t.runs[r], t)
             else t.running == s.running && t.rows == s.rows && t.listError == s.listError
    ensures Inv(t)
  {}

  lemma {:induction false} ClaimKeepsInv(s: State, r: nat, w: nat)
    requires Inv(s) && Enabled(s, Claim(r, w))
    ensures Inv(Step(s, Claim(r, w)))
  {
    var p := s.runs[r];
    ClaimKeepsPool(p, w, r == s.runId);
    var t := Step(s, Claim(r, w));
    if r == s.runId {
      var q := t.runs[r];
      assert forall j: nat | j < |p.items| :: Covered(q, j) <==> Covered(p, j);
      assert forall j: nat | j < |p.items| :: ExpectedRow(q, j) == ExpectedRow(p, j);
      assert RowsInv(q, t.rows);
      assert CurrentInv(q, t);
    }
    ReplaceRunKeepsInv(s, t, r);
  }

  lemma {:induction false} AnswerKeepsInv(s: State, r: nat, w: nat, reply: Reply)
    requires Inv(s) && Enabled(s, Answer(r, w, reply))
    ensures Inv(Step(s, Answer(r, w, reply)))
  {
    AnswerKeepsPool(s.runs[r], w, reply);
    if r == s.runId {
      AnswerKeepsRows(s.runs[r], s.rows, w, reply);
    }
    ReplaceRunKeepsInv(s, Step(s, Answer(r, w, reply)), r);
  }

  lemma {:induction false} JoinKeepsInv(s: State, r: nat)
    requires Inv(s) && Enabled(s, Join(r))
    ensures Inv(Step(s, Join(r)))
  {
    var p, t := s.runs[r], Step(s, Join(r));
    var q := t.runs[r];
    assert forall v: nat, i: nat :: Waits(q, v, i) <==> Waits(p, v, i);
    assert forall i: nat :: InFlight(q, i) <==> InFlight(p, i);
    if r == s.runId {
      assert forall j: nat | j < |p.items| :: Covered(q, j) <==> Covered(p, j);
      assert forall j: nat | j < |p.items| :: ExpectedRow(q, j) == ExpectedRow(p, j);
      assert RowsInv(q, t.rows);
    }
    ReplaceRunKeepsInv(s, t, r);
  }

  lemma {:induction false} StartKeepsInv(s: State)
    requires Inv(s)
    ensures Inv(StartRun(s))
  {}

  lemma {:induction false} ListKeepsInv(s: State, e: Event)
    requires Inv(s) && Enabled(s, e) && (e.ListReply? || e.ListFailed?)
    ensures Inv(Step(s, e))
  {
    if e.ListReply? {
      NewPoolFresh(e.items);
    }
    ReplaceRunKeepsInv(s, Step(s, e), e.run);
  }

  lemma {:induction false} StepKeepsInv(s: State, e: Event)
    requires Inv(s)
    ensures Inv(Step(s, e))
  {
    if Enabled(s, e) {
      match e {
        case Open => StartKeepsInv(s);
        case Rerun => StartKeepsInv(s);
        case Close => assert Step(s, e).runs == s.runs;
        case ListReply(r, items) => ListKeepsInv(s, e);
        case ListFailed(r, message) => ListKeepsInv(s, e);
        case Claim(r, w) => ClaimKeepsInv(s, r, w);
        case Answer(r, w, reply) => AnswerKeepsInv(s, r, w, reply);
        case Join(r) => JoinKeepsInv(s, r);
      }
    }
  }

  lemma {:induction false} ExecKeepsInv(s: State, events: seq<Event>)
    requires Inv(s)
    ensures Inv(Exec(s, events))
    decreases |events|
  {
    if events == [] {
    } else {
      StepKeepsInv(s, events[0]);
      ExecKeepsInv(Step(s, events[0]), events[1..]);
    }
  }

  // ---- What every schedule keeps ------------------------------------------------------------

  /**
   Whatever the schedule, a run has claimed a prefix of the list, each index once, and all it
   has claimed is answered or in flight, with never more than four requests in flight.
   */
  lemma {:induction false} RequestsOfARun(events: seq<Event>, r: nat)
    requires var s := Exec(INITIAL, events); r in s.runs && s.runs[r].Pool?
    ensures var p := Exec(INITIAL, events).runs[r];
            && p.sent == seq(Claimed(p), i => i)
            && (forall i: nat :: InFlight(p, i) <==> i in p.sent && i !in p.answered)
            && |p.sent| - |p.answered| == Total(p.workers, Requests) <= 4
            && |p.workers| == (if |p.items| < 4 then |p.items| else 4)
  {
    ExecKeepsInv(INITIAL, events);
    var p := Exec(INITIAL, events).runs[r];
    TotalAtMost(p.workers, Requests, 1);
    forall i: nat ensures InFlight(p, i) <==> i in p.sent && i !in p.answered {
      assert i in p.sent <==> i < |p.sent| && p.sent[i] == i;
    }
  }

  /** While a run is current, a row is still being checked iff its index is unclaimed or in flight. */
  lemma {:induction false} CheckingRows(events: seq<Event>, j: nat)
    requires var s := Exec(INITIAL, events);
             s.runId in s.runs && s.runs[s.runId].Pool? && DistinctKeys(s.runs[s.runId].items)
             && j < |s.runs[s.runId].items|
    ensures var s := Exec(INITIAL, events); var p := s.runs[s.runId];
            && |s.rows| == |p.items|
            && (s.rows[j].status.Checking? <==> j >= p.cursor || InFlight(p, j))
            && s.rows[j] == ExpectedRow(p, j)
  {
    ExecKeepsInv(INITIAL, events);
    var s := Exec(INITIAL, events);
    var p := s.runs[s.runId];
    if InFlight(p, j) {
      var w: nat :| Waits(p, w, j);
    }
  }

  /**
   When all workers of the current run have left, every index was probed exactly once and
   answered, and no row is still being checked -- also when several rows share a key.
   */
  lemma {:induction false} FinishedRun(events: seq<Event>)
    requires var s := Exec(INITIAL, events);
             s.runId in s.runs && s.runs[s.runId].Pool? && AllExited(s.runs[s.runId].workers)
    ensures var s := Exec(INITIAL, events); var p := s.runs[s.runId];
            && p.sent == seq(|p.items|, i => i)
            && (forall i: nat :: i in p.answered <==> i < |p.items|)
            && |s.rows| == |p.items|
            && (forall row | row in s.rows :: row.status.Known?)
  {
    ExecKeepsInv(INITIAL, events);
    var s := Exec(INITIAL, events);
    var p := s.runs[s.runId];
    if p.items != [] {
      assert p.workers[0].Exited?;
    }
    assert forall i: nat :: !InFlight(p, i);
    forall j: nat | j < |s.rows| ensures s.rows[j].status.Known? {
      assert j in p.answered;
    }
  }

  // ---- What the rows show ---------------------------------------------------------------------

  /** The row of a check, filled in from the reply to its probe. */
  predicate Shows(row: Row, item: Item, reply: Reply) {
    && row.item == item
    && match reply
       case Probed(outcome, latency, error, hint, note) =>
         row.status == Known(outcome) && row.latency == latency && row.error == error && row.hint == hint && row.note == note
       case NothingReturned =>
         row.status == Known(Fail) && row.error == Some("未返回檢查結果") && row.hint == "檢查請求失敗,稍後重試"
         && row.latency == 0 && row.note == None
       case Rejected(message) =>
         row.status == Known(Fail) && row.error == Some(message) && row.hint == "檢查請求失敗,稍後重試"
         && row.latency == 0 && row.note == None
  }

  lemma {:induction false} ExecConcat(s: State, a: seq<Event>, b: seq<Event>)
    ensures Exec(s, a + b) == Exec(Exec(s, a), b)
    decreases |a|
  {
    if a == [] {
      assert a + b == b;
    } else {
      ExecConcat(Step(s, a[0]), a[1..], b);
      assert (a + b)[1..] == a[1..] + b;
    }
  }

  /** What a run has once got -- the reply to a probe, the failure of its list -- it keeps. */
  ghost predicate Keeps(p: Run, q: Run) {
    && (p.Abandoned? ==> q == p)
    && (p.Pool? ==> q.Pool? && q.items == p.items
                    && forall i | i in p.answered :: i in q.answered && q.answered[i] == p.answered[i])
  }

  lemma {:induction false} StepKeepsReplies(s: State, r: nat, e: Event)
    requires Inv(s) && r in s.runs
    ensures r in Step(s, e).runs && Keeps(s.runs[r], Step(s, e).runs[r])
  {
    if Enabled(s, e) && e.Answer? && e.run == r {
      assert Waits(s.runs[r], e.worker, s.runs[r].workers[e.worker].index);
    }
  }

  lemma {:induction false} ExecKeepsReplies(s: State, r: nat, events: seq<Event>)
    requires Inv(s) && r in s.runs
    ensures r in Exec(s, events).runs && Keeps(s.runs[r], Exec(s, events).runs[r])
    decreases |events|
  {
    if events == [] {
    } else {
      StepKeepsReplies(s, r, events[0]);
      StepKeepsInv(s, events[0]);
      hide Inv, Step;
      ExecKeepsReplies(Step(s, events[0]), r, events[1..]);
    }
  }

  /**
   Whatever happens before and after a worker of the current run gets its reply: for as long as
   the run is current the row of the check it probed shows that reply, field by field.
   */
  lemma {:induction false} ReplyIsShown(before: seq<Event>, r: nat, w: nat, reply: Reply, after: seq<Event>)
    requires var s := Exec(INITIAL, before);
             Enabled(s, Answer(r, w, reply)) && r == s.runId && DistinctKeys(s.runs[r].items)
    requires Exec(INITIAL, before + [Answer(r, w, reply)] + after).runId == r
    ensures var s := Exec(INITIAL, before);
            var t := Exec(INITIAL, before + [Answer(r, w, reply)] + after);
            var i := s.runs[r].workers[w].index;
            && r in t.runs && t.runs[r].Pool? && t.runs[r].items == s.runs[r].items
            && |t.rows| == |s.runs[r].items|
            && Shows(t.rows[i], s.runs[r].items[i], reply)
  {
    var s, e := Exec(INITIAL, before), Answer(r, w, reply);
    var u := Step(s, e);
    ExecKeepsInv(INITIAL, before);
    StepKeepsInv(s, e);
    ExecConcat(INITIAL, before, [e]);
    assert Exec(s, [e]) == Exec(u, []) == u;
    ExecConcat(INITIAL, before + [e], after);
    ExecKeepsInv(u, after);
    ExecKeepsReplies(u, r, after);
    assert u.runs[r].answered[s.runs[r].workers[w].index] == reply;
    hide PoolInv, Exec, Step;
  }

  /** A check whose probe was not answered yet is shown as being checked, with nothing else filled in. */
  lemma {:induction false} UnansweredRowsAreBlank(events: seq<Event>, j: nat)
    requires var s := Exec(INITIAL, events);
             s.runId in s.runs && s.runs[s.runId].Pool? && DistinctKeys(s.runs[s.runId].items)
             && j < |s.runs[s.runId].items| && j !in s.runs[s.runId].answered
    ensures var s := Exec(INITIAL, events);
            |s.rows| > j && s.rows[j] == Row(s.runs[s.runId].items[j], Checking, 0, None, "", None)
  {
    ExecKeepsInv(INITIAL, events);
  }

  /** The failure of the current run's list is shown with its message for as long as the run is current. */
  lemma {:induction false} ListErrorIsShown(before: seq<Event>, r: nat, message: string, after: seq<Event>)
    requires var s := Exec(INITIAL, before); Enabled(s, ListFailed(r, message)) && r == s.runId
    requires Exec(INITIAL, before + [ListFailed(r, message)] + after).runId == r
    ensures var t := Exec(INITIAL, before + [ListFailed(r, message)] + after);
            t.listError == message && t.rows == [] && !t.running
  {
    var s, e := Exec(INITIAL, before), ListFailed(r, message);
    var u := Step(s, e);
    ExecKeepsInv(INITIAL, before);
    StepKeepsInv(s, e);
    ExecConcat(INITIAL, before, [e]);
    assert Exec(s, [e]) == Exec(u, []) == u;
    ExecConcat(INITIAL, before + [e], after);
    ExecKeepsInv(u, after);
    ExecKeepsReplies(u, r, after);
    hide PoolInv, RowsInv, Exec, Step;
  }

  /**
   The dialog shows a run as running iff that run is live, and the error of a failed list iff
   the current run's list failed; a closed dialog owns no run.
   */
  lemma {:induction false} FlagsOfOpenDialog(events: seq<Event>)
    ensures var s := Exec(INITIAL, events);
            && (s.open <==> s.runId in s.runs)
            && (s.open ==> (s.running <==> Live(s.runs[s.runId])))
            && (s.open ==> if s.runs[s.runId].Abandoned? then s.runs[s.runId].error == Some(s.listError) && s.rows == []
                           else s.listError == "")
  {
    ExecKeepsInv(INITIAL, events);
  }

  /** While the dialog stays closed nothing that is shown changes. */
  lemma {:induction false} ClosedKeepsScreen(s: State, later: seq<Event>)
    requires Inv(s) && !s.open && Open !in later
    ensures var t := Exec(s, later);
            !t.open && t.running == s.running && t.rows == s.rows && t.listError == s.listError
    decreases |later|
  {
    if later == [] {
    } else {
      assert later[0] in later;
      StepKeepsInv(s, later[0]);
      ClosedKeepsScreen(Step(s, later[0]), later[1..]);
    }
  }

  /** However long the dialog stays closed, its running flag is set iff it was closed during a run. */
  lemma {:induction false} RunningAfterCloseIff(events: seq<Event>, later: seq<Event>)
    requires Exec(INITIAL, events).open && Open !in later
    ensures var s := Exec(INITIAL, events);
            s.runId in s.runs && (Exec(Step(s, Close), later).running <==> Live(s.runs[s.runId]))
  {
    ExecKeepsInv(INITIAL, events);
    var s := Exec(INITIAL, events);
    StepKeepsInv(s, Close);
    ClosedKeepsScreen(Step(s, Close), later);
  }

  /** Closing during a run leaves the running flag set although no current run is left. */
  lemma {:induction false} RunningSurvivesClose()
    ensures var s := Exec(INITIAL, [Open, Close]); s.running && s.runId !in s.runs
  {}

  // ---- Cancellation -------------------------------------------------------------------------

  function RunOf(e: Event): Option<nat> {
    match e
    case Open => None
    case Close => None
    case Rerun => None
    case ListReply(r, _) => Some(r)
    case ListFailed(r, _) => Some(r)
    case Claim(r, _) => Some(r)
    case Answer(r, _, _) => Some(r)
    case Join(r) => Some(r)
  }

  predicate Stale(s: State, e: Event) {
    RunOf(e).Some? && RunOf(e).value != s.runId
  }

  /** The history without the steps of runs that were no longer current when they took them. */
  function WithoutStale(s: State, events: seq<Event>): seq<Event>
    decreases |events|
  {
    if events == [] then []
    else if Stale(s, events[0]) then WithoutStale(Step(s, events[0]), events[1..])
    else [events[0]] + WithoutStale(Step(s, events[0]), events[1..])
  }

  /** Same screen, same run id and same current run. */
  predicate SameView(s: State, t: State) {
    && s.open == t.open && s.runId == t.runId
    && s.running == t.running && s.listError == t.listError && s.rows == t.rows
    && (s.runId in s.runs <==> s.runId in t.runs)
    && (s.runId in s.runs ==> s.runs[s.runId] == t.runs[s.runId])
  }

  lemma {:induction false} StaleStepInvisible(s: State, e: Event)
    requires Stale(s, e)
    ensures SameView(s, Step(s, e))
  {}

  lemma {:induction false} CurrentRunDependsOnView(s: State, t: State, e: Event)
    requires SameView(s, t) && RunOf(e) == Some(s.runId)
    ensures SameView(Step(s, e), Step(t, e))
  {}

  lemma {:induction false} UserDependsOnView(s: State, t: State, e: Event)
    requires Inv(s) && Inv(t) && SameView(s, t) && RunOf(e).None?
    ensures SameView(Step(s, e), Step(t, e))
  {
    assert s.runId + 1 !in s.runs && s.runId + 1 !in t.runs;
  }

  lemma {:induction false} CurrentStepDependsOnView(s: State, t: State, e: Event)
    requires Inv(s) && Inv(t) && SameView(s, t) && !Stale(s, e)
    ensures SameView(Step(s, e), Step(t, e))
  {
    hide Inv, SameView, Step;
    if RunOf(e).None? {
      UserDependsOnView(s, t, e);
    } else {
      CurrentRunDependsOnView(s, t, e);
    }
  }

  /** Erasing every step of every superseded run from any history changes nothing one can see. */
  lemma {:induction false} StaleStepsCanBeErased(s: State, t: State, events: seq<Event>)
    requires Inv(s) && Inv(t) && SameView(s, t)
    ensures SameView(Exec(s, events), Exec(t, WithoutStale(s, events)))
    decreases |events|
  {
    if events == [] {
    } else {
      var e := events[0];
      StepKeepsInv(s, e);
      if Stale(s, e) {
        StaleStepInvisible(s, e);
        StaleStepsCanBeErased(Step(s, e), t, events[1..]);
      } else {
        StepKeepsInv(t, e);
        CurrentStepDependsOnView(s, t, e);
        StaleStepsCanBeErased(Step(s, e), Step(t, e), events[1..]);
        var rest := WithoutStale(Step(s, e), events[1..]);
        assert ([e] + rest)[0] == e && ([e] + rest)[1..] == rest;
      }
    }
  }

  // ---- Termination --------------------------------------------------------------------------

  /** What a run has left to do: two steps an unclaimed index, its workers' debts, and the join. */
  function Work(p: Run): nat
    requires p.Pool?
  {
    2 * (|p.items| - Claimed(p)) + Total(p.workers, Debt) + (if p.joined then 0 else 1)
  }

  /** How many events of run r really happen along a history. */
  function StepsTaken(s: State, r: nat, events: seq<Event>): nat
    decreases |events|
  {
    if events == [] then 0
    else (if Enabled(s, events[0]) && RunOf(events[0]) == Some(r) then 1 else 0)
         + StepsTaken(Step(s, events[0]), r, events[1..])
  }

  lemma {:induction false} ClaimPaysWork(p: Run, w: nat, current: bool)
    requires p.Pool? && w < |p.workers| && p.workers[w].Ready?
    ensures Work(ClaimNext(p, w, current)) == Work(p) - 1
  {
    TotalUpdate(p.workers, Debt, w, ClaimNext(p, w, current).workers[w]);
  }

  lemma {:induction false} AnswerPaysWork(p: Run, w: nat, reply: Reply)
    requires p.Pool? && w < |p.workers| && p.workers[w].Waiting?
    ensures Work(TakeAnswer(p, w, reply)) == Work(p) - 1
  {
    TotalUpdate(p.workers, Debt, w, Ready);
  }

  lemma {:induction false} OwnStepPaysWork(s: State, r: nat, e: Event)
    requires Enabled(s, e) && RunOf(e) == Some(r) && s.runs[r].Pool?
    ensures var t := Step(s, e);
            && r in t.runs && t.runs[r].Pool? && t.runs[r].items == s.runs[r].items
            && Work(t.runs[r]) == Work(s.runs[r]) - 1
  {
    match e {
      case Claim(_, w) => ClaimPaysWork(s.runs[r], w, r == s.runId);
      case Answer(_, w, reply) => AnswerPaysWork(s.runs[r], w, reply);
      case Join(_) =>
    }
  }

  lemma {:induction false} OtherStepKeepsRun(s: State, r: nat, e: Event)
    requires Inv(s) && r in s.runs && !(Enabled(s, e) && RunOf(e) == Some(r))
    ensures var t := Step(s, e); r in t.runs && t.runs[r] == s.runs[r]
  {}

  lemma {:induction false} StepPaysWork(s: State, r: nat, e: Event)
    requires Inv(s) && r in s.runs && s.runs[r].Pool?
    ensures var t := Step(s, e);
            && r in t.runs && t.runs[r].Pool? && t.runs[r].items == s.runs[r].items
            && Work(t.runs[r]) == Work(s.runs[r]) - (if Enabled(s, e) && RunOf(e) == Some(r) then 1 else 0)
  {
    hide Inv, Step, Work;
    if Enabled(s, e) && RunOf(e) == Some(r) {
      OwnStepPaysWork(s, r, e);
    } else {
      OtherStepKeepsRun(s, r, e);
    }
  }

  /**
   Every step of a run pays exactly one unit of its work, in every schedule and whether or not
   it is still current; so a run over n checks ends after at most 2n + min(4, n) + 1 steps.
   */
  lemma {:induction false} WorkIsConserved(s: State, r: nat, events: seq<Event>)
    requires Inv(s) && r in s.runs && s.runs[r].Pool?
    ensures var t := Exec(s, events);
            && r in t.runs && t.runs[r].Pool?
            && Work(t.runs[r]) + StepsTaken(s, r, events) == Work(s.runs[r])
    decreases |events|
  {
    if events == [] {
    } else {
      StepPaysWork(s, r, events[0]);
      StepKeepsInv(s, events[0]);
      WorkIsConserved(Step(s, events[0]), r, events[1..]);
    }
  }

  lemma {:induction false} WorkOfNewRun(items: seq<Item>)
    ensures Work(NewPool(items)) == if items == [] then 0 else 2 * |items| + (if |items| < 4 then |items| else 4) + 1
  {
    TotalSame(NewPool(items).workers, Debt, Ready);
  }

  /** A run that is listing or has work left can always take a step: it cannot get stuck short of its end. */
  lemma {:induction false} NoDeadlock(s: State, r: nat)
    requires Inv(s) && r in s.runs && Live(s.runs[r])
    ensures exists e: Event :: RunOf(e) == Some(r) && Enabled(s, e)
  {
    var p := s.runs[r];
    if p.Listing? {
      assert RunOf(ListReply(r, [])) == Some(r) && Enabled(s, ListReply(r, []));
    } else if w: nat :| w < |p.workers| && p.workers[w].Ready? {
      assert RunOf(Claim(r, w)) == Some(r) && Enabled(s, Claim(r, w));
    } else if w: nat :| w < |p.workers| && p.workers[w].Waiting? {
      assert Waits(p, w, p.workers[w].index);
      assert RunOf(Answer(r, w, NothingReturned)) == Some(r) && Enabled(s, Answer(r, w, NothingReturned));
    } else {
      assert RunOf(Join(r)) == Some(r) && Enabled(s, Join(r));
    }
  }

  // ---- The dialog ---------------------------------------------------------------------------

  /** The component: its React state, the run id ref, and the closures of the runs it started. */
  class SelfCheckModal {
    var open: bool
    var runId: nat
    var running: bool
    var listError: string
    var rows: seq<Row>
    var runs: map<nat, Run>

    function Abs(): State
      reads this
    {
      State(open, runId, running, listError, rows, runs)
    }

    constructor ()
      ensures Abs() == INITIAL && Inv(Abs())
      ensures !open && !running && listError == "" && rows == [] && runs == map[]
    {
      open, runId, running, listError, rows, runs := false, 0, false, "", [], map[];
    }

    /** runCheck up to its first await, called when the dialog opens or by the rerun button. */
    method RunCheck(rerun: bool)
      requires Inv(Abs()) && open == rerun
      modifies this
      ensures Inv(Abs()) && Abs() == Step(old(Abs()), if rerun then Rerun else Open)
    {
      ghost var before := Abs();
      hide Inv;
      open := true;
      runId := runId + 1;
      running := true;
      listError := "";
      rows := [];
      runs := runs[runId := Listing];
      StepKeepsInv(before, if rerun then Rerun else Open);
    }

    method CloseDialog()
      requires Inv(Abs()) && open
      modifies this
      ensures Inv(Abs()) && Abs() == Step(old(Abs()), Close)
    {
      ghost var before := Abs();
      hide Inv;
      open := false;
      runId := runId + 1;
      StepKeepsInv(before, Close);
    }

    method ReceiveList(run: nat, items: seq<Item>)
      requires Inv(Abs()) && Enabled(Abs(), ListReply(run, items))
      modifies this
      ensures Inv(Abs()) && Abs() == Step(old(Abs()), ListReply(run, items))
    {
      ghost var before := Abs();
      if run != runId {
        runs := runs[run := Abandoned(None)];
      } else {
        rows := Skeleton(items);
        if |rows| == 0 {
          running := false;
        }
        runs := runs[run := NewPool(items)];
      }
      StepKeepsInv(before, ListReply(run, items));
      assert Abs() == Step(before, ListReply(run, items));
    }

    method FailList(run: nat, message: string)
      requires Inv(Abs()) && Enabled(Abs(), ListFailed(run, message))
      modifies this
      ensures Inv(Abs()) && Abs() == Step(old(Abs()), ListFailed(run, message))
    {
      ghost var before := Abs();
      hide Inv;
      if run != runId {
        runs := runs[run := Abandoned(None)];
      } else {
        listError := message;
        running := false;
        runs := runs[run := Abandoned(Some(message))];
      }
      StepKeepsInv(before, ListFailed(run, message));
    }

    /** The top of the worker loop: leave, or take the next index and send its probe. */
    method ClaimIndex(run: nat, worker: nat)
      requires Inv(Abs()) && Enabled(Abs(), Claim(run, worker))
      modifies this
      ensures Inv(Abs()) && Abs() == Step(old(Abs()), Claim(run, worker))
    {
      ghost var before := Abs();
      hide Inv;
      var p := runs[run];
      if run != runId {
        p := p.(workers := p.workers[worker := Exited]);
      } else {
        var idx := p.cursor;
        p := p.(cursor := p.cursor + 1);
        if idx >= |p.items| {
          p := p.(workers := p.workers[worker := Exited]);
        } else {
          p := p.(workers := p.workers[worker := Waiting(idx)], sent := p.sent + [idx]);
        }
      }
      runs := runs[run := p];
      StepKeepsInv(before, Claim(run, worker));
    }

    /** The rest of the worker loop: merge the reply into the rows if the run is still current. */
    method ReceiveAnswer(run: nat, worker: nat, reply: Reply)
      requires Inv(Abs()) && Enabled(Abs(), Answer(run, worker, reply))
      modifies this
      ensures Inv(Abs()) && Abs() == Step(old(Abs()), Answer(run, worker, reply))
    {
      ghost var before := Abs();
      hide Inv;
      var p := runs[run];
      var idx := p.workers[worker].index;
      if run == runId {
        rows := Merge(rows, p.items[idx].key, reply);
      }
      runs := runs[run := p.(workers := p.workers[worker := Ready], answered := p.answered[idx := reply])];
      StepKeepsInv(before, Answer(run, worker, reply));
    }

    /** The code after Promise.all. */
    method JoinWorkers(run: nat)
      requires Inv(Abs()) && Enabled(Abs(), Join(run))
      modifies this
      ensures Inv(Abs()) && Abs() == Step(old(Abs()), Join(run))
    {
      ghost var before := Abs();
      hide Inv;
      runs := runs[run := runs[run].(joined := true)];
      if run == runId {
        running := false;
      }
      StepKeepsInv(before, Join(run));
    }
  }
}
