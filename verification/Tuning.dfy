/**
 Relay, channel and node together. What was sent may arrive any number of times, at any later time and in any
 order, or not at all; nothing arrives at the node from the controller's address, or at the relay from the
 node, that was not sent.
 */
module Tuning {
  import opened Options
  import opened TuningWire
  import Clock
  import R = TuningRelay
  import N = TuningNode

  datatype Event = Relay(r: R.Event) | Node(n: N.Event)

  /** A command that the node executed, with the node before it and the answers of radar and flash. */
  datatype Execution = Execution(n: N.Node, c: Config, w: N.World)

  datatype System = System(
    relay: R.State, node: N.Node,
    asked: set<Config>, air: set<Config>, executed: set<Execution>, acks: set<Ack>)

  function Start(node: N.Node): System {
    System(R.State(R.START, R.Idle, R.Outside), node, {}, {}, {}, {})
  }

  predicate Enabled(s: System, e: Event) {
    match e
    case Relay(r) => R.Enabled(s.relay, r) && (r.Packet? && r.ack.Some? ==> r.ack.value in s.acks)
    case Node(n) => n.Received? && n.trusted ==> n.c in s.air
  }

  function Answers(fx: seq<N.Effect>): (s: set<Ack>)
    ensures forall a :: a in s <==> exists i :: 0 <= i < |fx| && fx[i] == N.Answer(a)
  {
    if fx == [] then {}
    else
      var rest := fx[..|fx| - 1];
      assert fx == rest + [fx[|fx| - 1]];
      assert forall a :: (exists i :: 0 <= i < |fx| && fx[i] == N.Answer(a)) <==>
        (exists i :: 0 <= i < |rest| && rest[i] == N.Answer(a)) || fx[|fx| - 1] == N.Answer(a);
      if fx[|fx| - 1].Answer? then Answers(rest) + {fx[|fx| - 1].ack} else Answers(rest)
  }

  function Step(s: System, e: Event): System {
    match e
    case Relay(r) =>
      var t := s.(relay := R.Step(s.relay, r));
      if r.CommandTaken? && r.bad.None? then t.(asked := s.asked + {r.msg})
      else if r.CommandRadio? && r.err.None? && s.relay.mqtt.Sending? then t.(air := s.air + {s.relay.mqtt.msg})
      else if r.ReadRadio? then t.(air := s.air + {R.ReadRequest(s.node.id)})
      else t
    case Node(n) =>
      s.(node := N.Next(s.node, n),
         acks := s.acks + Answers(N.Effects(s.node, n)),
         executed := if N.Executes(s.node, n) then s.executed + {Execution(s.node, n.c, n.w)} else s.executed)
  }

  function At(node: N.Node, h: seq<Event>, k: nat): System
    requires k <= |h|
  {
    if k == 0 then Start(node) else Step(At(node, h, k - 1), h[k - 1])
  }

  /** The first `k` events each could happen where they did. */
  predicate Legal(node: N.Node, h: seq<Event>, k: nat)
    requires k <= |h|
  {
    k == 0 || (Legal(node, h, k - 1) && Enabled(At(node, h, k - 1), h[k - 1]))
  }

  // ----------------------------------------------------------------- where everything comes from

  predicate FromAsked(s: System, c: Config) {
    c in s.asked || c == R.ReadRequest(s.node.id)
  }

  /** The answer of an execution, or the report at the end of a calibration that an execution started. */
  ghost predicate Explains(x: Execution, a: Ack) {
    || a == N.AckOf(x.n, x.c, x.w)
    || (x.c.action == CALIBRATE && N.Act(x.n, x.c, x.w).outcome == Done && a.request == x.c.request
        && a.action == CALIBRATE)
  }

  ghost predicate Explained(s: System, a: Ack) {
    exists x :: x in s.executed && Explains(x, a)
  }

  ghost predicate StartedBy(s: System, request: word) {
    exists x :: x in s.executed
      && x.c.action == CALIBRATE && N.Act(x.n, x.c, x.w).outcome == Done && x.c.request == request
  }

  ghost predicate RelayOk(s: System) {
    && (s.relay.mqtt.Sending? ==> s.relay.mqtt.msg in s.asked)
    && (forall c | c in s.air :: FromAsked(s, c))
    && (s.relay.n.reply.ack.Some? ==> s.relay.n.reply.ack.value in s.acks)
    && (s.relay.n.dirty && s.relay.n.reply.kind.FromNode? ==>
          s.relay.n.reply.ack.Some? && s.relay.n.reply.request == s.relay.n.reply.ack.value.request
          && s.relay.n.reply.action == s.relay.n.reply.ack.value.action)
  }

  ghost predicate NodeOk(s: System) {
    && (forall x | x in s.executed :: x.c in s.air && x.c.target == s.node.id && x.n.id == s.node.id)
    && (forall a | a in s.acks :: Explained(s, a))
    && (s.node.lastAck.Some? ==> Explained(s, s.node.lastAck.value))
    && (s.node.calibrating ==> StartedBy(s, s.node.calibRequest))
  }

  lemma {:induction false} MoreExecuted(s: System, t: System)
    requires s.executed <= t.executed
    ensures forall a :: Explained(s, a) ==> Explained(t, a)
    ensures forall r :: StartedBy(s, r) ==> StartedBy(t, r)
  {
  }

  lemma {:induction false} RelayStepKeeps(s: System, e: R.Event)
    requires RelayOk(s) && NodeOk(s) && Enabled(s, Relay(e))
    ensures RelayOk(Step(s, Relay(e))) && NodeOk(Step(s, Relay(e)))
  {
    RelayStaysOk(s, e);
    MoreExecuted(s, Step(s, Relay(e)));
    hide RelayOk, R.ReadRequest, R.Step, Explained, StartedBy;
  }

  lemma {:induction false} RelayStaysOk(s: System, e: R.Event)
    requires RelayOk(s) && Enabled(s, Relay(e))
    ensures RelayOk(Step(s, Relay(e)))
  {
    RelayStepKeepsReply(s.relay, e);
    hide R.ReadRequest, R.Step;
  }

  /** A step of the relay: the message it is about to send, and the answer it holds, come from where they may. */
  lemma {:induction false} RelayStepKeepsReply(s: R.State, e: R.Event)
    ensures var t := R.Step(s, e);
      && (t.mqtt.Sending? ==>
            (s.mqtt.Sending? && t.mqtt.msg == s.mqtt.msg) || (e.CommandTaken? && e.bad.None? && t.mqtt.msg == e.msg))
      && ((t.n.reply == s.n.reply && (t.n.dirty ==> s.n.dirty))
          || (!t.n.reply.kind.FromNode? && t.n.reply.ack.None?)
          || (e.Packet? && e.ack.Some?
              && t.n.reply == R.Reply(R.FromNode, e.ack.value.request, e.ack.value.action, "", e.ack)))
  {
    hide R.ReadDue, R.Overdue, R.Cut;
  }

  lemma {:induction false} NodeStepKeeps(s: System, e: N.Event)
    requires RelayOk(s) && NodeOk(s) && Enabled(s, Node(e))
    ensures RelayOk(Step(s, Node(e))) && NodeOk(Step(s, Node(e)))
  {
    var t := Step(s, Node(e));
    MoreExecuted(s, t);
    hide N.Act, N.AckOf, N.FinishCalibration, Explained, StartedBy;
    if N.Executes(s.node, e) {
      ExecutionKeeps(s, e);
    } else if N.Finishes(s.node, e) {
      FinishKeeps(s, e);
    }
  }

  /** The new answer is that of the new execution; the older ones are explained as before. */
  lemma {:induction false} AnswersExplained(s: System, e: N.Event)
    requires NodeOk(s) && Enabled(s, Node(e)) && N.Executes(s.node, e)
    ensures var t := Step(s, Node(e));
      && (forall a | a in t.acks :: Explained(t, a))
      && (t.node.lastAck.Some? ==> Explained(t, t.node.lastAck.value))
  {
    var t := Step(s, Node(e));
    var x := Execution(s.node, e.c, e.w);
    var a := N.AckOf(s.node, e.c, e.w);
    MoreExecuted(s, t);
    NoAnswers(s.node, e.c, e.w);
    hide N.Act, N.AckOf, N.FinishCalibration, StartedBy;
    assert x in t.executed && Explains(x, a);
    assert Explained(t, a);
    hide Explained;
    forall b | b in t.acks ensures Explained(t, b) {
      if b !in s.acks {
        assert b == a;
      }
    }
  }

  lemma {:induction false} CalibrationKnown(s: System, e: N.Event)
    requires NodeOk(s) && Enabled(s, Node(e)) && N.Executes(s.node, e)
    ensures var t := Step(s, Node(e)); t.node.calibrating ==> StartedBy(t, t.node.calibRequest)
  {
    var t := Step(s, Node(e));
    MoreExecuted(s, t);
    N.ActedCalibration(s.node, e.c, e.w);
    hide N.Act, N.AckOf, N.FinishCalibration, Explained, N.Effects;
    if e.c.action == CALIBRATE && N.Act(s.node, e.c, e.w).outcome == Done {
      assert Execution(s.node, e.c, e.w) in t.executed;
      assert StartedBy(t, e.c.request);
    }
  }

  lemma {:induction false} ExecutionKeeps(s: System, e: N.Event)
    requires RelayOk(s) && NodeOk(s) && Enabled(s, Node(e)) && N.Executes(s.node, e)
    ensures RelayOk(Step(s, Node(e))) && NodeOk(Step(s, Node(e)))
  {
    AnswersExplained(s, e);
    CalibrationKnown(s, e);
    N.SettingsOnly(s.node, e.c, e.w);
    hide N.Act, N.AckOf, N.FinishCalibration, Explained, StartedBy, N.Effects;
  }

  lemma {:induction false} NoAnswers(n: N.Node, c: Config, w: N.World)
    ensures forall i: nat | i < |N.Act(n, c, w).effects| :: !N.Act(n, c, w).effects[i].Answer?
  {
  }

  lemma {:induction false} FinishKeeps(s: System, e: N.Event)
    requires RelayOk(s) && NodeOk(s) && N.Finishes(s.node, e)
    ensures RelayOk(Step(s, Node(e))) && NodeOk(Step(s, Node(e)))
  {
    var t := Step(s, Node(e));
    MoreExecuted(s, t);
    var fx := N.FinishCalibration(s.node, e.w).effects;
    forall b | b in t.acks ensures Explained(t, b) {
      if b !in s.acks {
        var i: nat :| i < |fx| && fx[i] == N.Answer(b);
        N.FinishAnswers(s.node, e.w, i);
        var x :| x in s.executed && x.c.action == CALIBRATE && N.Act(x.n, x.c, x.w).outcome == Done
          && x.c.request == s.node.calibRequest;
        assert x in t.executed && Explains(x, b);
      }
    }
  }

  lemma {:induction false} StartOk(node: N.Node)
    requires N.Fresh(node)
    ensures RelayOk(Start(node)) && NodeOk(Start(node))
  {
  }

  lemma {:induction false} IdKept(s: System, e: Event)
    ensures Step(s, e).node.id == s.node.id
  {
    hide N.Act, N.AckOf, R.Step, N.Effects;
    if e.Node? && N.Executes(s.node, e.n) {
      N.SettingsOnly(s.node, e.n.c, e.n.w);
    }
  }

  lemma {:induction false} EverythingExplained(node: N.Node, h: seq<Event>, k: nat)
    requires N.Fresh(node) && k <= |h| && Legal(node, h, k)
    ensures RelayOk(At(node, h, k)) && NodeOk(At(node, h, k)) && At(node, h, k).node.id == node.id
  {
    hide RelayOk, NodeOk, Step, Enabled;
    if k == 0 {
      StartOk(node);
    } else {
      EverythingExplained(node, h, k - 1);
      var s := At(node, h, k - 1);
      IdKept(s, h[k - 1]);
      match h[k - 1]
      case Relay(r) => RelayStepKeeps(s, r);
      case Node(n) => NodeStepKeeps(s, n);
    }
  }

  /**
   Whatever the channel does, a node's answer that the relay publishes comes from a command that the node
   executed, and that command from the dashboard, or it is a read without an id, the relay's own.
   */
  lemma {:induction false} AnswerHasACommand(node: N.Node, h: seq<Event>, k: nat, reply: R.Reply) returns (x: Execution)
    requires N.Fresh(node) && k < |h| && Legal(node, h, k + 1) && h[k] == Relay(R.PublishTurn)
    requires R.Publish(At(node, h, k).relay.n, Clock.Tick(At(node, h, k).relay.poll.from)) == Some(reply)
    requires reply.kind.FromNode?
    ensures var s := At(node, h, k);
      && reply.ack.Some? && reply.request == x.c.request && reply.action == x.c.action
      && x in s.executed && Explains(x, reply.ack.value) && x.c.target == node.id
      && (x.c in s.asked || (reply.request == 0 && reply.action == 3))
  {
    EverythingExplained(node, h, k);
    var s := At(node, h, k);
    hide N.Act, N.AckOf;
    x :| x in s.executed && Explains(x, reply.ack.value);
    AckNamesCommand(x, reply.ack.value);
  }

  lemma {:induction false} AckNamesCommand(x: Execution, a: Ack)
    requires Explains(x, a)
    ensures a.request == x.c.request && a.action == x.c.action
  {
  }

  /** So an `apply` that the dashboard sees succeed was merged into the node's settings, checked and pushed. */
  lemma {:induction false} AppliedMeansApplied(node: N.Node, h: seq<Event>, k: nat, reply: R.Reply)
    returns (x: Execution)
    requires N.Fresh(node) && k < |h| && Legal(node, h, k + 1) && h[k] == Relay(R.PublishTurn)
    requires R.Publish(At(node, h, k).relay.n, Clock.Tick(At(node, h, k).relay.poll.from)) == Some(reply)
    requires reply.kind.FromNode? && reply.action == 1 && reply.ack.Some? && reply.ack.value.outcome == Done
    ensures x in At(node, h, k).executed && x.c in At(node, h, k).asked && x.c.request == reply.request
    ensures x.w.push && ParamsOk(reply.ack.value.params)
    ensures TakenOver(reply.ack.value.params, x.n.current, x.c.params, x.c.fields)
    ensures reply.ack.value.saved == x.w.save
  {
    x := AnswerHasACommand(node, h, k, reply);
    AppliedAck(x, reply.ack.value);
    MergeTakesOver(x.n.current, x.c.params, x.c.fields);
    hide Merge, TakenOver, ParamsOk;
  }

  lemma {:induction false} AppliedAck(x: Execution, a: Ack)
    requires Explains(x, a) && a.action == APPLY && a.outcome == Done
    ensures x.w.push && ParamsOk(a.params) && a.params == Merge(x.n.current, x.c.params, x.c.fields)
    ensures a.saved == x.w.save
  {
    hide Merge, ParamsOk;
  }
}
