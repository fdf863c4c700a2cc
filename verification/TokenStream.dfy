/**
 Streamed answers in the chat widget (frontend/src/components/ChatWidget.tsx): tokens go into a
 buffer at once and onto the screen once per animation frame; a tool call clears the buffer
 without cancelling the frame, a reset does both.
 */
module TokenStream {
  import opened Wrappers

  /** `frames` is the browser's queue of callbacks that were requested and not yet run or cancelled. */
  datatype State = State(buffer: string, raf: Option<nat>, shown: string, frames: set<nat>, lastFrame: nat)

  datatype Event = Token(text: string) | Frame(id: nat) | ToolStart | Reset

  const INITIAL := State("", None, "", {}, 0)

  function Step(s: State, e: Event): State {
    match e
    case Token(text) =>
      var t := s.(buffer := s.buffer + text);
      if s.raf.Some? then t
      else t.(raf := Some(s.lastFrame + 1), frames := s.frames + {s.lastFrame + 1}, lastFrame := s.lastFrame + 1)
    case Frame(id) => if id in s.frames then s.(frames := s.frames - {id}, raf := None, shown := s.buffer) else s
    case ToolStart => s.(buffer := "", shown := "")
    case Reset => State("", None, "", if s.raf.Some? then s.frames - {s.raf.value} else s.frames, s.lastFrame)
  }

  function Exec(events: seq<Event>): State {
    if events == [] then INITIAL else Step(Exec(events[..|events| - 1]), events[|events| - 1])
  }

  /** Rendering without batching: every token is on the screen as soon as it arrives. */
  function Eager(events: seq<Event>): string {
    if events == [] then ""
    else
      var before := Eager(events[..|events| - 1]);
      match events[|events| - 1]
      case Token(text) => before + text
      case Frame(_) => before
      case ToolStart => ""
      case Reset => ""
  }

  predicate Clears(e: Event) {
    e.ToolStart? || e.Reset?
  }

  /** At most one frame is ever requested, and the ref knows it. */
  predicate Inv(s: State) {
    && s.frames == (if s.raf.Some? then {s.raf.value} else {})
    && (s.raf.Some? ==> s.raf.value <= s.lastFrame)
    && s.shown <= s.buffer
    && (s.raf.None? ==> s.shown == s.buffer)
  }

  /**
   Over all interleavings of tokens, frames, tool starts and resets, the shown text is a prefix
   of what eager rendering shows, equal to it whenever no frame is pending, and the one pending
   frame, when it runs, brings the screen up to date.
   */
  lemma {:induction false} BatchingRefinesEager(events: seq<Event>)
    ensures var s := Exec(events);
            && Inv(s)
            && s.buffer == Eager(events)
            && s.shown <= Eager(events)
            && (s.frames == {} ==> s.shown == Eager(events))
            && (forall id | id in s.frames :: s.raf == Some(id) && Step(s, Frame(id)).shown == Eager(events))
  {
    if events == [] {
    } else {
      BatchingRefinesEager(events[..|events| - 1]);
    }
  }

  /** The shown text is what eager rendering showed at some moment since the last clearing. */
  ghost predicate ShownAt(events: seq<Event>, k: nat) {
    && k <= |events|
    && Exec(events).shown == Eager(events[..k])
    && (forall i | k <= i < |events| :: !Clears(events[i]))
  }

  lemma {:induction false} StepShows(s: State, e: Event)
    requires Inv(s)
    ensures var t := Step(s, e); t.shown == t.buffer || (t.shown == s.shown && !Clears(e))
  {}

  lemma {:induction false} ShownWasEager(events: seq<Event>)
    ensures exists k: nat :: ShownAt(events, k)
  {
    if events == [] {
      assert ShownAt(events, 0);
    } else {
      var before, e := events[..|events| - 1], events[|events| - 1];
      ShownWasEager(before);
      BatchingRefinesEager(events);
      BatchingRefinesEager(before);
      StepShows(Exec(before), e);
      var k: nat :| ShownAt(before, k);
      assert Exec(events) == Step(Exec(before), e);
      hide Exec, Eager, Step, Inv, Clears;
      if Exec(events).shown == Exec(before).shown && !Clears(e) {
        assert events[..k] == before[..k];
        assert ShownAt(events, k);
      } else {
        assert events[..|events|] == events;
        assert ShownAt(events, |events|);
      }
    }
  }

  /** Between two clearings the shown text only grows. */
  lemma {:induction false} ShownOnlyGrows(events: seq<Event>, more: seq<Event>)
    requires forall i | 0 <= i < |more| :: !Clears(more[i])
    ensures Exec(events).shown <= Exec(events + more).shown
  {
    if more == [] {
      assert events + more == events;
    } else {
      var before := more[..|more| - 1];
      ShownOnlyGrows(events, before);
      BatchingRefinesEager(events + before);
      assert (events + more)[..|events + more| - 1] == events + before;
    }
  }

  /** The refs and the state of the widget that take part in streaming. */
  class ChatStream {
    var tokenBuf: string
    var raf: Option<nat>
    var streamText: string
    var frames: set<nat>
    var lastFrame: nat

    function Abs(): State
      reads this
    {
      State(tokenBuf, raf, streamText, frames, lastFrame)
    }

    constructor ()
      ensures Abs() == INITIAL
    {
      tokenBuf, raf, streamText, frames, lastFrame := "", None, "", {}, 0;
    }

    method PushToken(text: string)
      modifies this
      ensures Abs() == Step(old(Abs()), Token(text))
    {
      tokenBuf := tokenBuf + text;
      if raf.None? {
        lastFrame := lastFrame + 1;
        frames := frames + {lastFrame};
        raf := Some(lastFrame);
      }
    }

    method RunFrame(id: nat)
      requires id in frames
      modifies this
      ensures Abs() == Step(old(Abs()), Frame(id))
    {
      frames := frames - {id};
      raf := None;
      streamText := tokenBuf;
    }

    method StartTool()
      modifies this
      ensures Abs() == Step(old(Abs()), ToolStart)
    {
      tokenBuf := "";
      streamText := "";
    }

    method ResetStream()
      modifies this
      ensures Abs() == Step(old(Abs()), Reset)
    {
      tokenBuf := "";
      if raf.Some? {
        frames := frames - {raf.value};
        raf := None;
      }
      streamText := "";
    }
  }
}
