/** One passive connection: selection, link tests, rejection, and which messages reach the simulator. */
module Session {
  import opened Basics
  import opened Hsms
  import opened HsmsChannel
  import opened Interleaving
  import opened HostExchange
  import Fab

  function Control(sType: byte, system: u32, body: bytes): Frame {
    Frame(Header(0xFFFF, 0, 0, false, sType, system), body)
  }

  function SelectRequest(system: u32): Frame {
    Control(1, system, [])
  }

  const ACCEPTED := 0
  const NOT_READY := 1

  function SelectResponse(system: u32, status: u16): Frame {
    Control(2, system, BigEndian(2, status))
  }

  /** What one frame causes. */
  datatype Reaction =
    | Answer(frame: Frame, selected: bool)
    | Handle(message: Message)
    | Close
    | Ignore

  function React(selected: bool, f: Frame): Reaction {
    var h := f.header;
    match h.sType as int
    case 1 => Answer(SelectResponse(h.system, if selected then NOT_READY else ACCEPTED), true)
    case 4 => Close
    case 5 => Answer(Control(6, h.system, []), selected)
    case 0 =>
      if !selected then Answer(Control(7, h.system, [0, 0]), false) else
      (match FromParts(h, f.body)
       case None => Close
       case Some(m) => Handle(m))
    case _ => Ignore
  }

  /** The answers of the connection itself, and the messages handed to the simulator. */
  datatype Served = Served(answers: seq<Frame>, handled: seq<Message>)

  /** A connection over the frames it receives; `keeps` says after which handled message it goes on. */
  function Serve(selected: bool, frames: seq<Frame>, keeps: nat -> bool, n: nat): Served
    decreases frames
  {
    if frames == [] then Served([], []) else
    match React(selected, frames[0])
    case Answer(frame, selected') =>
      var rest := Serve(selected', frames[1..], keeps, n);
      rest.(answers := [frame] + rest.answers)
    case Handle(m) =>
      if !keeps(n) then Served([], [m]) else
      var rest := Serve(selected, frames[1..], keeps, n + 1);
      rest.(handled := [m] + rest.handled)
    case Close => Served([], [])
    case Ignore => Serve(selected, frames[1..], keeps, n)
  }

  /** The loop of `serve_connection`: what it does depends only on the bytes that arrive, never on how they
      are cut into pieces. */
  method ServeConnection(channel: Channel, keeps: nat -> bool) returns (served: Served)
    requires channel.stream.Valid()
    modifies channel.stream
    ensures served == Serve(false, ReceiveAll(old(channel.stream.Rest())), keeps, 0)
  {
    hide React, Receive;
    ghost var frames := ReceiveAll(channel.stream.Rest());
    var selected := false;
    var answers: seq<Frame>, handled: seq<Message> := [], [];
    while true
      invariant channel.stream.Valid()
      invariant var rest := Serve(selected, ReceiveAll(channel.stream.Rest()), keeps, |handled|);
                Serve(false, frames, keeps, 0) == Served(answers + rest.answers, handled + rest.handled)
      decreases |channel.stream.Rest()|
    {
      ghost var now := ReceiveAll(channel.stream.Rest());
      var received := channel.Recv();
      if received.Err? {
        assert answers + [] == answers && handled + [] == handled;
        return Served(answers, handled);
      }
      ghost var later := ReceiveAll(channel.stream.Rest());
      assert now[0] == received.value && now[1..] == later;
      match React(selected, received.value) {
        case Answer(frame, selected') =>
          ghost var rest := Serve(selected', later, keeps, |handled|);
          assert answers + ([frame] + rest.answers) == (answers + [frame]) + rest.answers;
          answers := answers + [frame];
          selected := selected';
        case Handle(m) =>
          if !keeps(|handled|) {
            assert answers + [] == answers;
            return Served(answers, handled + [m]);
          }
          ghost var rest := Serve(selected, later, keeps, |handled| + 1);
          assert handled + ([m] + rest.handled) == (handled + [m]) + rest.handled;
          handled := handled + [m];
        case Close =>
          assert answers + [] == answers && handled + [] == handled;
          return Served(answers, handled);
        case Ignore =>
      }
    }
  }

  // ----- properties -----

  /** Without a select request nothing ever reaches the simulator. */
  lemma {:induction false} NothingHandledUnselected(frames: seq<Frame>, keeps: nat -> bool, n: nat)
    requires forall i :: 0 <= i < |frames| ==> frames[i].header.sType != 1
    ensures Serve(false, frames, keeps, n).handled == []
    decreases frames
  {
    if frames != [] {
      assert forall i :: 0 <= i < |frames[1..]| ==> frames[1..][i] == frames[i + 1];
      NothingHandledUnselected(frames[1..], keeps, n);
    }
  }

  /** What a frame is answered with: a select with its status, a link test with its response, data before
      selection with a rejection; each with the frame's own system bytes. */
  function AnswerTo(selected: bool, f: Frame): seq<Frame> {
    var answer := (sType: byte, body: bytes) => [Frame(Header(0xFFFF, 0, 0, false, sType, f.header.system), body)];
    if f.header.sType == 1 then answer(2, if selected then [0, 1] else [0, 0])
    else if f.header.sType == 5 then answer(6, [])
    else if f.header.sType == 0 && !selected then answer(7, [0, 0])
    else []
  }

  /** Does the frame end the connection? */
  predicate Ends(selected: bool, f: Frame) {
    f.header.sType == 4 || (f.header.sType == 0 && selected && FromParts(f.header, f.body).None?)
  }

  /** The messages a frame hands over. */
  function HandedBy(selected: bool, f: Frame): seq<Message> {
    if f.header.sType == 0 && selected && FromParts(f.header, f.body).Some? then [FromParts(f.header, f.body).value] else []
  }

  /** Everything answered and handed over up to a frame, and whether the connection is selected then. */
  function AnswersTo(frames: seq<Frame>): seq<Frame> {
    if frames == [] then [] else AnswersTo(frames[..|frames| - 1]) + AnswerTo(SelectedBy(frames[..|frames| - 1]), frames[|frames| - 1])
  }

  function HandedOver(frames: seq<Frame>): seq<Message> {
    if frames == [] then [] else HandedOver(frames[..|frames| - 1]) + HandedBy(SelectedBy(frames[..|frames| - 1]), frames[|frames| - 1])
  }

  /** A connection is selected from its first select request on. */
  predicate SelectedBy(frames: seq<Frame>) {
    exists i :: 0 <= i < |frames| && frames[i].header.sType == 1
  }

  lemma StatusBytes()
    ensures BigEndian(2, ACCEPTED) == [0, 0] && BigEndian(2, NOT_READY) == [0, 1]
  {
    TwoBytes(0);
    TwoBytes(1);
    hide BigEndian;
  }

  lemma ReactsExactly(selected: bool, f: Frame)
    ensures var r := React(selected, f);
            && (r.Close? <==> Ends(selected, f))
            && (if r.Answer? then AnswerTo(selected, f) == [r.frame] && r.selected == (selected || f.header.sType == 1)
                else AnswerTo(selected, f) == [] && f.header.sType != 1)
            && (if r.Handle? then HandedBy(selected, f) == [r.message] else HandedBy(selected, f) == [])
  {
    StatusBytes();
    hide BigEndian, FromParts;
  }

  /** What a connection has done after some frames, none of which ends it and whose messages all keep it: it
      has answered each as it should, in order, and handed over their messages; and it goes on from there. */
  lemma {:induction false} SessionSoFar(frames: seq<Frame>, later: seq<Frame>, keeps: nat -> bool)
    requires forall i :: 0 <= i < |frames| ==> !Ends(SelectedBy(frames[..i]), frames[i])
    requires forall k: nat :: k < |HandedOver(frames)| ==> keeps(k)
    ensures var rest := Serve(SelectedBy(frames), later, keeps, |HandedOver(frames)|);
            Serve(false, frames + later, keeps, 0) == Served(AnswersTo(frames) + rest.answers, HandedOver(frames) + rest.handled)
    decreases |frames|
  {
    hide Ends, AnswerTo, HandedBy, React, Serve, SelectedBy;
    if frames == [] {
      assert !SelectedBy(frames) by { NotYetSelected(); }
      var rest := Serve(false, later, keeps, 0);
      assert frames + later == later && [] + rest.answers == rest.answers && [] + rest.handled == rest.handled;
    } else {
      var k := |frames| - 1;
      var front, f := frames[..k], frames[k];
      var a, h := AnswerTo(SelectedBy(front), f), HandedBy(SelectedBy(front), f);
      assert AnswersTo(frames) == AnswersTo(front) + a && HandedOver(frames) == HandedOver(front) + h;
      hide HandedOver, AnswersTo;
      FrontGoesOn(frames);
      SelectedStep(front, f);
      assert frames == front + [f];
      Associative(front, [f], later);
      SessionSoFar(front, [f] + later, keeps);
      ServeOne(SelectedBy(front), f, later, keeps, |HandedOver(front)|);
      var rest := Serve(SelectedBy(frames), later, keeps, |HandedOver(frames)|);
      Associative(AnswersTo(front), a, rest.answers);
      Associative(HandedOver(front), h, rest.handled);
    }
  }

  lemma NotYetSelected()
    ensures !SelectedBy([])
  {
  }

  lemma FrontGoesOn(frames: seq<Frame>)
    requires frames != [] && forall i :: 0 <= i < |frames| ==> !Ends(SelectedBy(frames[..i]), frames[i])
    ensures var front := frames[..|frames| - 1];
            forall i :: 0 <= i < |front| ==> !Ends(SelectedBy(front[..i]), front[i])
  {
    hide Ends, SelectedBy;
    var front := frames[..|frames| - 1];
    forall i | 0 <= i < |front| ensures !Ends(SelectedBy(front[..i]), front[i]) {
      assert front[i] == frames[i] && front[..i] == frames[..i];
    }
  }

  lemma Associative<T>(a: seq<T>, b: seq<T>, c: seq<T>)
    ensures a + (b + c) == (a + b) + c
  {
  }

  lemma SelectedStep(front: seq<Frame>, f: Frame)
    ensures SelectedBy(front + [f]) == (SelectedBy(front) || f.header.sType == 1)
  {
    var all := front + [f];
    assert all[|front|] == f;
    if SelectedBy(front) {
      var i :| 0 <= i < |front| && front[i].header.sType == 1;
      assert all[i] == front[i];
    }
  }

  lemma ServeOne(selected: bool, f: Frame, later: seq<Frame>, keeps: nat -> bool, n: nat)
    requires !Ends(selected, f) && (HandedBy(selected, f) != [] ==> keeps(n))
    ensures var rest := Serve(selected || f.header.sType == 1, later, keeps, n + |HandedBy(selected, f)|);
            Serve(selected, [f] + later, keeps, n)
            == Served(AnswerTo(selected, f) + rest.answers, HandedBy(selected, f) + rest.handled)
  {
    ReactsExactly(selected, f);
    assert ([f] + later)[1..] == later;
    hide React, Ends, AnswerTo, HandedBy;
    var rest := Serve(selected || f.header.sType == 1, later, keeps, n + |HandedBy(selected, f)|);
    assert [] + rest.answers == rest.answers && [] + rest.handled == rest.handled;
  }

  /** A frame that ends the connection, or a message after which it is not kept, is the last that matters. */
  lemma SessionEnds(selected: bool, f: Frame, later: seq<Frame>, keeps: nat -> bool, n: nat)
    requires Ends(selected, f) || (HandedBy(selected, f) != [] && !keeps(n))
    ensures Serve(selected, [f] + later, keeps, n) == Served([], HandedBy(selected, f))
  {
    ReactsExactly(selected, f);
    hide React, AnswerTo, HandedBy;
  }

  predicate IsAccept(f: Frame) {
    f.header.sType == 2 && f.body == BigEndian(2, ACCEPTED)
  }

  function Accepts(frames: seq<Frame>): nat {
    if frames == [] then 0 else (if IsAccept(frames[0]) then 1 else 0) + Accepts(frames[1..])
  }

  lemma ReactAccepts(selected: bool, f: Frame)
    ensures var r := React(selected, f);
            r.Answer? ==> (IsAccept(r.frame) <==> !selected && r.selected) && (selected ==> r.selected)
  {
    assert BigEndian(2, NOT_READY) != BigEndian(2, ACCEPTED) by {
      assert BigEndian(2, NOT_READY)[1] == 1 && BigEndian(2, ACCEPTED)[1] == 0;
    }
  }

  /** A connection is accepted at most once, and never after it has been. */
  lemma {:induction false} AcceptedAtMostOnce(selected: bool, frames: seq<Frame>, keeps: nat -> bool, n: nat)
    ensures Accepts(Serve(selected, frames, keeps, n).answers) <= if selected then 0 else 1
    decreases frames
  {
    hide React, IsAccept;
    if frames != [] {
      ReactAccepts(selected, frames[0]);
      match React(selected, frames[0])
      case Answer(frame, selected') =>
        var rest := Serve(selected', frames[1..], keeps, n);
        AcceptedAtMostOnce(selected', frames[1..], keeps, n);
        assert ([frame] + rest.answers)[1..] == rest.answers;
      case Handle(_) => AcceptedAtMostOnce(selected, frames[1..], keeps, n + 1);
      case Close =>
      case Ignore => AcceptedAtMostOnce(selected, frames[1..], keeps, n);
    }
  }

  lemma DeliverableIsHandled(m: Message)
    requires Deliverable(m) && m.header.sType == 0
    ensures React(true, ToFrame(m)) == Handle(m)
  {
    MessageRoundTrip(m);
    hide FromParts;
  }

  lemma {:induction false} SelectedHandlesAll(ms: seq<Message>, keeps: nat -> bool, n: nat)
    requires forall j :: 0 <= j < |ms| ==> Deliverable(ms[j]) && ms[j].header.sType == 0
    requires forall j: nat :: n <= j < n + |ms| ==> keeps(j)
    ensures Serve(true, FramesOf(ms), keeps, n) == Served([], ms)
    decreases ms
  {
    hide React, Deliverable, ToFrame;
    if ms != [] {
      DeliverableIsHandled(ms[0]);
      assert FramesOf(ms)[1..] == FramesOf(ms[1..]);
      assert forall j :: 0 <= j < |ms[1..]| ==> ms[1..][j] == ms[j + 1];
      SelectedHandlesAll(ms[1..], keeps, n + 1);
      assert [ms[0]] + ms[1..] == ms;
    }
  }

  /** A host that selects and then sends in-range messages is accepted, and the simulator handles exactly
      those messages, in order, for as long as it keeps the connection. */
  lemma {:induction false} SelectThenSend(system: u32, ms: seq<Message>, keeps: nat -> bool)
    requires forall j :: 0 <= j < |ms| ==> Deliverable(ms[j]) && ms[j].header.sType == 0
    requires forall j: nat :: j < |ms| ==> keeps(j)
    ensures Serve(false, [SelectRequest(system)] + FramesOf(ms), keeps, 0) == Served([SelectResponse(system, ACCEPTED)], ms)
  {
    SelectedHandlesAll(ms, keeps, 0);
    var frames := [SelectRequest(system)] + FramesOf(ms);
    assert frames[1..] == FramesOf(ms);
    assert [SelectResponse(system, ACCEPTED)] + [] == [SelectResponse(system, ACCEPTED)];
  }

  /** The same over the wire: however the host's bytes are cut into pieces. */
  lemma {:induction false} SelectThenSendBytes(system: u32, ms: seq<Message>, keeps: nat -> bool)
    requires forall j :: 0 <= j < |ms| ==> Deliverable(ms[j]) && ms[j].header.sType == 0
    requires forall j: nat :: j < |ms| ==> keeps(j)
    ensures Serve(false, ReceiveAll(EncodeFrames([SelectRequest(system)] + FramesOf(ms))), keeps, 0)
            == Served([SelectResponse(system, ACCEPTED)], ms)
  {
    hide Serve;
    SelectThenSend(system, ms, keeps);
    FramesCarryMessages(ms);
    StreamRoundTrip([SelectRequest(system)] + FramesOf(ms));
  }

  // ----- sessions and the simulator -----

  lemma {:induction false} UndeliveredStaysSilent(s: System, steps: seq<Step>, c: nat)
    requires Handed(steps, c) == []
    requires c in s.connections ==> s.connections[c].out == [] && !Running(s.connections[c].pc)
    ensures var s' := Run(s, steps);
            c in s'.connections ==> s'.connections[c].out == [] && !Running(s'.connections[c].pc)
    decreases steps
  {
    hide RunnerStep, Fab.Stage, Fab.Serve;
    if steps != [] {
      assert !(steps[0].Deliver? && steps[0].c == c);
      UndeliveredStaysSilent(Next(s, steps[0]), steps[1..], c);
    }
  }

  /** A connection that never selects is silent: in every schedule in which the simulator is handed what the
      session lets through, it runs no job and sends nothing, not even an event. */
  lemma UnselectedConnectionIsSilent(device: u16, mdln: string, softrev: string, steps: seq<Step>, c: nat,
                                     bs: bytes, keeps: nat -> bool)
    requires forall i :: 0 <= i < |ReceiveAll(bs)| ==> ReceiveAll(bs)[i].header.sType != 1
    requires Handed(steps, c) <= Serve(false, ReceiveAll(bs), keeps, 0).handled
    ensures var s := Run(Initial(device, mdln, softrev), steps);
            c in s.connections ==> s.connections[c].out == [] && !Running(s.connections[c].pc)
  {
    NothingHandledUnselected(ReceiveAll(bs), keeps, 0);
    hide Run;
    UndeliveredStaysSilent(Initial(device, mdln, softrev), steps, c);
  }
}
