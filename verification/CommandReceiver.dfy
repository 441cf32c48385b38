// `receive_command` in its own form: one pass over the channels that updates the burst counter in
// place, proved against the stages of the pipeline's state machine.

module CommandReceiver {
  import opened RenderPipeline

  /** What a pass ends with; a pass that finds nothing waits for a channel to become ready. */
  datatype Reception = Got(command: Command) | Ended | Waits

  class Channels {
    var control: seq<Command>
    var visible: seq<Command>
    var low: seq<Command>
    var budget: nat
    /** A shutdown signal is in its channel. */
    var signal: bool
    /** The senders of all channels are gone. */
    var closed: bool

    constructor ()
      ensures control == [] && visible == [] && low == [] && budget == 0 && !signal && !closed
    {
      control, visible, low, budget, signal, closed := [], [], [], 0, false, false;
    }

    /** The channels, the counter and the signal are those of a state of the pipeline. */
    ghost predicate Shows(s: State)
      reads this
    {
      && s.q.control == control && s.q.visible == visible && s.q.low == low
      && s.w.budget == budget && s.l.signal == signal && s.l.schedulerDropped == closed
    }

    /** One pass of the loop. */
    method ReceiveOnce(ghost s: State) returns (r: Reception)
      requires Shows(s) && s.w.pc.Receive? && s.w.pc.stage.SeeShutdown?
      modifies this
      ensures Shows(Pass(s)) && r == OutcomeOf(Pass(s))
    {
      PassInStages(s);
      if signal || closed {
        signal := false;
        return Ended;
      }
      if control != [] {
        var command := control[0];
        control := control[1..];
        return Got(command);
      }
      var controlOpen := !closed;
      var lowOpen := true;
      if budget >= VISIBLE_BURST {
        if low != [] {
          var command := low[0];
          low, budget := low[1..], 0;
          return Got(command);
        }
        lowOpen := !closed;
      }
      if visible != [] {
        var command := visible[0];
        visible, budget := visible[1..], budget + 1;
        return Got(command);
      }
      var visibleOpen := !closed;
      if budget < VISIBLE_BURST {
        if low != [] {
          var command := low[0];
          low, budget := low[1..], 0;
          return Got(command);
        }
        lowOpen := !closed;
      }
      if !controlOpen && !visibleOpen && !lowOpen {
        return Ended;
      }
      return Waits;
    }
  }

  /** The stages of one pass with no other step in between. */
  function Pass(s: State): State {
    Stages(s, 5)
  }

  function Stages(s: State, n: nat): State
    decreases n
  {
    if n == 0 || !s.w.pc.Receive? then s else Stages(ReceiveStep(s), n - 1)
  }

  function OutcomeOf(s: State): Reception {
    match s.w.pc
    case Dispatch(command, _) => Got(command)
    case Receive(_, _) => Waits
    case _ => Ended
  }

  /** A pass seen stage by stage. */
  lemma PassInStages(s: State)
    requires s.w.pc.Receive? && s.w.pc.stage.SeeShutdown?
    ensures var t := Pass(s);
            var (q, l) := (s.q, s.l);
            if ShutdownSeen(l) then t == Stop(Consume(s), Signalled)
            else
              && t.l == l
              && if q.control != [] then
                   && t.q == TakeControl(q) && t.w.budget == s.w.budget
                   && OutcomeOf(t) == Got(q.control[0])
                 else if s.w.budget >= VISIBLE_BURST && q.low != [] then
                   t.q == TakeLow(q) && t.w.budget == 0 && OutcomeOf(t) == Got(q.low[0])
                 else if q.visible != [] then
                   && t.q == TakeVisible(q, s.w.pc.call.lowWaiting) && t.w.budget == s.w.budget + 1
                   && OutcomeOf(t) == Got(q.visible[0])
                 else if q.low != [] then t.q == TakeLow(q) && t.w.budget == 0 && OutcomeOf(t) == Got(q.low[0])
                 else t.q == q && t.w.budget == s.w.budget && OutcomeOf(t) == Waits
  {
    hide TakeControl, TakeVisible, TakeLow;
    if !ShutdownSeen(s.l) {
      var a := ReceiveStep(s);
      var b := ReceiveStep(a);
      assert Stages(s, 5) == Stages(b, 3);
      if b.w.pc.Receive? {
        var c := ReceiveStep(b);
        assert Stages(b, 3) == Stages(c, 2);
        if c.w.pc.Receive? {
          var d := ReceiveStep(c);
          assert Stages(c, 2) == Stages(d, 1);
          if d.w.pc.Receive? {
            assert Stages(d, 1) == Stages(ReceiveStep(d), 0) == ReceiveStep(d);
          }
        }
      }
    } else {
      assert Stages(s, 5) == Stages(ReceiveStep(s), 4) == Stop(Consume(s), Signalled);
    }
  }
}
