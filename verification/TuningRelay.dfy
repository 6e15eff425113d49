/**
 The relay's record of one presence node. Three tasks change it, each change under the lock: the MQTT task
 takes a command, sends it, and only then notes that it waits for an answer; the safety task hands in the
 packets that the node sent; the telemetry task asks for settings, gives up on unanswered commands and
 publishes replies. Every change is one event, so a history of events is one interleaving of the three.
 */
module TuningRelay {
  import opened Bytes
  import opened Options
  import opened Clock
  import opened TuningWire

  type Mac = nat

  const REPLY_TIMEOUT: nat := 8000
  const READ_RETRY: nat := 30000
  const ERROR_LEN: nat := 64

  datatype Kind = FromNode | Rejected | UnknownNode | SendFailed | NoReply

  datatype Reply = Reply(kind: Kind, request: word, action: byte, error: string, ack: Option<Ack>)

  datatype Entry = Entry(
    mac: Option<Mac>, wantRead: bool, nextRead: U32,
    pending: bool, pendingRequest: word, pendingAction: byte, deadline: U32,
    dirty: bool, reply: Reply)

  const NO_REPLY_TEXT := "the node did not answer (out of range, or older firmware?)"
  const UNKNOWN_TEXT := "nothing received from this node since the controller started"

  const EMPTY_REPLY := Reply(FromNode, 0, 0, "", None)
  const START := Entry(None, false, 0, false, 0, 0, 0, false, EMPTY_REPLY)

  /** A text in its fixed buffer. */
  function Cut(text: string): string {
    if |text| < ERROR_LEN then text else text[..ERROR_LEN - 1]
  }

  lemma {:induction false} NothingToCut()
    ensures Cut("") == ""
  {
  }

  // ----------------------------------------------------------------- one critical section each

  function WithReply(n: Entry, r: Reply): Entry {
    n.(dirty := true, reply := r)
  }

  /** What the first section of a command says at once: `bad` is the parser's complaint. */
  function Refusal(n: Entry, msg: Config, bad: Option<string>): Option<Reply> {
    if bad.Some? then Some(Reply(Rejected, msg.request, msg.action, Cut(bad.value), None))
    else if n.mac.None? then Some(Reply(UnknownNode, msg.request, msg.action, Cut(UNKNOWN_TEXT), None))
    else None
  }

  function TakeCommand(n: Entry, msg: Config, bad: Option<string>): Entry {
    var r := Refusal(n, msg, bad);
    if r.Some? then WithReply(n, r.value) else n
  }

  /** The second section, after the radio took the message (`failure` is none) or did not. */
  function CommandGone(n: Entry, msg: Config, failure: Option<string>, now: U32): Entry {
    if failure.Some? then
      WithReply(n, Reply(SendFailed, msg.request, msg.action, Cut(failure.value), None))
    else
      n.(pending := true, pendingRequest := msg.request, pendingAction := msg.action,
          deadline := Plus(now, REPLY_TIMEOUT))
  }

  /** A packet of the node: an ACK, or anything else (none). */
  function Hear(n: Entry, mac: Mac, rx: U32, ack: Option<Ack>): Entry {
    var m := if n.mac == Some(mac) then n else n.(mac := Some(mac), wantRead := true, nextRead := rx);
    if ack.None? then m else
      var p := if m.pending && ack.value.request == m.pendingRequest then m.(pending := false) else m;
      WithReply(p, Reply(FromNode, ack.value.request, ack.value.action, "", ack)).(wantRead := false)
  }

  predicate ReadDue(n: Entry, now: U32) {
    n.wantRead && n.mac.Some? && !n.pending && Reached(now, n.nextRead)
  }

  function DecideRead(n: Entry, now: U32): Entry {
    if ReadDue(n, now) then n.(nextRead := Plus(now, READ_RETRY)) else n
  }

  predicate Overdue(n: Entry, now: U32) {
    n.pending && Reached(now, n.deadline)
  }

  function GiveUp(n: Entry, now: U32): Entry {
    if Overdue(n, now) then
      WithReply(n.(pending := false), Reply(NoReply, n.pendingRequest, n.pendingAction, Cut(NO_REPLY_TEXT), None))
    else n
  }

  /** What the telemetry task publishes at its second section, if anything. */
  function Publish(n: Entry, now: U32): Option<Reply> {
    if GiveUp(n, now).dirty then Some(GiveUp(n, now).reply) else None
  }

  function ReplyTurn(n: Entry, now: U32): Entry {
    GiveUp(n, now).(dirty := false)
  }

  /** The automatic request for the node's settings. */
  const ZERO_PARAMS := Params(0, 0, 0, 0, 0, 0, 0, 0, {}, {}, false, false, ZEROS, ZEROS)

  function ReadRequest(nodeId: nat): Config {
    Config(nodeId, 0, READ, {}, 0, 0, ZERO_PARAMS)
  }

  // ----------------------------------------------------------------- the three tasks, interleaved

  /** Where the MQTT task stands in `on_command`: before it, about to send, or after sending. */
  datatype Mqtt = Idle | Sending(msg: Config, peer: Mac) | Sent(gone: Config, failure: Option<string>)

  /** Where the telemetry task stands in `poll`: before it, about to send a read, or about to publish. */
  datatype Poll = Outside | Reading(at: nat, peer: Mac) | Publishing(from: nat)

  datatype State = State(n: Entry, mqtt: Mqtt, poll: Poll)

  /** Times are milliseconds since the controller started; the sections see them through the 32-bit clock. */
  datatype Event =
    | CommandTaken(msg: Config, bad: Option<string>)
    | CommandRadio(err: Option<string>)
    | CommandDone(time: nat)
    | Packet(mac: Mac, rx: nat, ack: Option<Ack>)
    | ReadTurn(now: nat)
    | ReadRadio
    | PublishTurn

  predicate Enabled(s: State, e: Event) {
    match e
    case CommandTaken(_, _) => s.mqtt.Idle?
    case CommandRadio(_) => s.mqtt.Sending?
    case CommandDone(_) => s.mqtt.Sent?
    case Packet(_, _, _) => true
    case ReadTurn(_) => s.poll.Outside?
    case ReadRadio => s.poll.Reading?
    case PublishTurn => s.poll.Publishing?
  }

  function Step(s: State, e: Event): State {
    if !Enabled(s, e) then s else
    match e
    case CommandTaken(msg, bad) =>
      var go := Refusal(s.n, msg, bad).None?;
      s.(n := TakeCommand(s.n, msg, bad), mqtt := if go then Sending(msg, s.n.mac.value) else Idle)
    case CommandRadio(err) =>
      s.(mqtt := Sent(s.mqtt.msg, err))
    case CommandDone(time) =>
      s.(n := CommandGone(s.n, s.mqtt.gone, s.mqtt.failure, Tick(time)), mqtt := Idle)
    case Packet(mac, rx, ack) =>
      s.(n := Hear(s.n, mac, Tick(rx), ack))
    case ReadTurn(now) =>
      s.(n := DecideRead(s.n, Tick(now)),
         poll := if ReadDue(s.n, Tick(now)) then Reading(now, s.n.mac.value) else Publishing(now))
    case ReadRadio =>
      s.(poll := Publishing(s.poll.at))
    case PublishTurn =>
      s.(n := ReplyTurn(s.n, Tick(s.poll.from)), poll := Outside)
  }

  /** The state before event number `k` of a history. */
  function At(h: seq<Event>, k: nat): State
    requires k <= |h|
  {
    if k == 0 then State(START, Idle, Outside) else Step(At(h, k - 1), h[k - 1])
  }

  /** Every task only ever takes its own next step. */
  predicate Legal(h: seq<Event>) {
    forall k | 0 <= k < |h| :: Enabled(At(h, k), h[k])
  }

  // ----------------------------------------------------------------- waiting for an answer

  /** Event `j` noted that a command went out and its answer is awaited. */
  predicate SentAt(h: seq<Event>, j: nat)
    requires j < |h|
  {
    h[j].CommandDone? && At(h, j).mqtt.Sent? && At(h, j).mqtt.failure.None?
  }

  function SentMessage(h: seq<Event>, j: nat): Config
    requires j < |h| && SentAt(h, j)
  {
    At(h, j).mqtt.gone
  }

  function DueTime(h: seq<Event>, j: nat): nat
    requires j < |h| && SentAt(h, j)
  {
    h[j].time + REPLY_TIMEOUT
  }

  predicate PublishesAt(h: seq<Event>, k: nat)
    requires k < |h|
  {
    h[k].PublishTurn? && At(h, k).poll.Publishing?
  }

  /** Event `i` ends the wait begun at `j`: a newer command, an ACK with the awaited id, or a late publishing turn. */
  predicate EndsAt(h: seq<Event>, j: nat, i: nat)
    requires j < i < |h| && SentAt(h, j)
  {
    || SentAt(h, i)
    || (h[i].Packet? && h[i].ack.Some? && h[i].ack.value.request == SentMessage(h, j).request)
    || (PublishesAt(h, i) && Reached(Tick(At(h, i).poll.from), Tick(DueTime(h, j))))
  }

  ghost predicate WaitsFor(h: seq<Event>, k: nat, j: nat)
    requires k <= |h|
  {
    j < k && SentAt(h, j) && forall i | j < i < k :: !EndsAt(h, j, i)
  }

  ghost predicate PendingOn(h: seq<Event>, k: nat, j: nat)
    requires k <= |h| && j < k && SentAt(h, j)
  {
    var n := At(h, k).n;
    n.pending && n.pendingRequest == SentMessage(h, j).request && n.pendingAction == SentMessage(h, j).action
    && n.deadline == Tick(DueTime(h, j))
  }

  /**
   The record waits for an answer exactly while some command was sent and noted, and since that note there
   was no newer command, no ACK with its id, and no publishing turn at or after its deadline.
   */
  lemma {:induction false} PendingMeansWaiting(h: seq<Event>, k: nat)
    requires k <= |h|
    ensures At(h, k).n.pending <==> exists j :: WaitsFor(h, k, j)
    ensures forall j | WaitsFor(h, k, j) :: PendingOn(h, k, j)
  {
    if k > 0 {
      PendingMeansWaiting(h, k - 1);
      forall j: nat | WaitsFor(h, k, j) ensures PendingOn(h, k, j) {
        WaitGoesOn(h, k - 1, j);
      }
      if At(h, k).n.pending {
        if SentAt(h, k - 1) {
          assert WaitsFor(h, k, k - 1);
        } else {
          var j: nat :| WaitsFor(h, k - 1, j);
          WaitNotOver(h, k - 1, j);
        }
      }
    }
  }

  lemma {:induction false} WaitGoesOn(h: seq<Event>, k: nat, j: nat)
    requires k < |h| && WaitsFor(h, k + 1, j)
    requires j < k ==> PendingOn(h, k, j)
    ensures PendingOn(h, k + 1, j)
  {
    PlusIsLater(h[j].time, REPLY_TIMEOUT);
    if j < k {
      assert !EndsAt(h, j, k);
    }
  }

  lemma {:induction false} WaitNotOver(h: seq<Event>, k: nat, j: nat)
    requires k < |h| && WaitsFor(h, k, j) && PendingOn(h, k, j)
    requires At(h, k + 1).n.pending && !SentAt(h, k)
    ensures WaitsFor(h, k + 1, j)
  {
    assert !EndsAt(h, j, k);
  }

  // ----------------------------------------------------------------- replies

  /** The reply that an event leaves for publication, if it leaves one. */
  function SetBy(s: State, e: Event): Option<Reply> {
    match e
    case CommandTaken(msg, bad) => if s.mqtt.Idle? then Refusal(s.n, msg, bad) else None
    case CommandDone(_) =>
      if s.mqtt.Sent? && s.mqtt.failure.Some? then
        Some(Reply(SendFailed, s.mqtt.gone.request, s.mqtt.gone.action, Cut(s.mqtt.failure.value), None))
      else None
    case Packet(_, _, ack) =>
      if ack.Some? then Some(Reply(FromNode, ack.value.request, ack.value.action, "", ack)) else None
    case PublishTurn =>
      if s.poll.Publishing? && Overdue(s.n, Tick(s.poll.from)) then
        Some(Reply(NoReply, s.n.pendingRequest, s.n.pendingAction, Cut(NO_REPLY_TEXT), None))
      else None
    case _ => None
  }

  function SaidAt(h: seq<Event>, k: nat): Option<Reply>
    requires k < |h|
  {
    SetBy(At(h, k), h[k])
  }

  /** What event `k` publishes. */
  function PublishedAt(h: seq<Event>, k: nat): Option<Reply>
    requires k < |h|
  {
    if PublishesAt(h, k) then Publish(At(h, k).n, Tick(At(h, k).poll.from)) else None
  }

  /** A complaint as far as 63 characters go. */
  predicate Complaint(error: string, text: string) {
    error == if |text| <= 63 then text else text[..63]
  }

  /** A command that is answered at once: a bad one with the parser's complaint, any while no packet has come yet. */
  predicate RefusedAt(h: seq<Event>, k: nat, r: Reply)
    requires k < |h|
  {
    && h[k].CommandTaken? && At(h, k).mqtt.Idle?
    && r.request == h[k].msg.request && r.action == h[k].msg.action && r.ack.None?
    && if h[k].bad.Some? then r.kind.Rejected? && Complaint(r.error, h[k].bad.value)
       else
         r.kind.UnknownNode? && (forall i | 0 <= i < k :: !h[i].Packet?)
         && r.error == "nothing received from this node since the controller started"
  }

  /** A command that the radio did not take. */
  predicate FailedAt(h: seq<Event>, k: nat, r: Reply)
    requires k < |h|
  {
    && h[k].CommandDone? && At(h, k).mqtt.Sent? && At(h, k).mqtt.failure.Some?
    && r.request == At(h, k).mqtt.gone.request && r.action == At(h, k).mqtt.gone.action && r.ack.None?
    && r.kind.SendFailed? && Complaint(r.error, At(h, k).mqtt.failure.value)
  }

  predicate AnsweredAt(h: seq<Event>, k: nat, r: Reply)
    requires k < |h|
  {
    && h[k].Packet? && h[k].ack.Some? && r.ack == h[k].ack
    && r.request == h[k].ack.value.request && r.action == h[k].ack.value.action
    && r.kind.FromNode? && r.error == ""
  }

  ghost predicate GivenUpAt(h: seq<Event>, k: nat, r: Reply)
    requires k < |h|
  {
    && PublishesAt(h, k) && r.kind.NoReply? && r.ack.None?
    && r.error == "the node did not answer (out of range, or older firmware?)"
    && exists j: nat ::
      && WaitsFor(h, k, j) && Reached(Tick(At(h, k).poll.from), Tick(DueTime(h, j)))
      && r.request == SentMessage(h, j).request && r.action == SentMessage(h, j).action
  }

  lemma {:induction false} CutMeans(text: string)
    ensures Complaint(Cut(text), text)
  {
  }

  lemma {:induction false} FirstPacket(h: seq<Event>, k: nat)
    requires k <= |h|
    ensures At(h, k).n.mac.None? <==> forall i | 0 <= i < k :: !h[i].Packet?
  {
    if k > 0 {
      FirstPacket(h, k - 1);
      hide Refusal, Reached, Plus, Tick, Cut;
    }
  }

  lemma {:induction false} TextsFit()
    ensures Cut(NO_REPLY_TEXT) == "the node did not answer (out of range, or older firmware?)"
    ensures Cut(UNKNOWN_TEXT) == "nothing received from this node since the controller started"
  {
  }

  lemma {:induction false} RefusedMeans(h: seq<Event>, k: nat, r: Reply)
    requires k < |h| && h[k].CommandTaken?
    ensures SaidAt(h, k) == Some(r) <==> RefusedAt(h, k, r)
  {
    FirstPacket(h, k);
    TextsFit();
    if h[k].bad.Some? {
      CutMeans(h[k].bad.value);
    }
    hide At, Cut, UNKNOWN_TEXT;
  }

  lemma {:induction false} FailedMeans(h: seq<Event>, k: nat, r: Reply)
    requires k < |h| && h[k].CommandDone?
    ensures SaidAt(h, k) == Some(r) <==> FailedAt(h, k, r)
  {
    var s := At(h, k);
    if s.mqtt.Sent? && s.mqtt.failure.Some? {
      CutMeans(s.mqtt.failure.value);
    }
    hide At, Cut;
  }

  lemma {:induction false} GivenUpMeans(h: seq<Event>, k: nat, r: Reply)
    requires k < |h| && h[k].PublishTurn?
    ensures SaidAt(h, k) == Some(r) <==> GivenUpAt(h, k, r)
  {
    PendingMeansWaiting(h, k);
    TextsFit();
    hide At, Cut, NO_REPLY_TEXT, WaitsFor;
    forall j: nat | WaitsFor(h, k, j) ensures j < k && SentAt(h, j) && PendingOn(h, k, j) {
      WaitsMeans(h, k, j);
    }
    hide Reached, Tick, DueTime;
  }

  lemma {:induction false} WaitsMeans(h: seq<Event>, k: nat, j: nat)
    requires k <= |h| && WaitsFor(h, k, j)
    ensures j < k && SentAt(h, j)
  {
  }

  /** The replies there are, each with the command it names: refused, not sent, answered, or given up. */
  lemma {:induction false} SaidExactly(h: seq<Event>, k: nat, r: Reply)
    requires k < |h|
    ensures SaidAt(h, k) == Some(r) <==>
      RefusedAt(h, k, r) || FailedAt(h, k, r) || AnsweredAt(h, k, r) || GivenUpAt(h, k, r)
  {
    match h[k]
    case CommandTaken(_, _) => RefusedMeans(h, k, r);
    case CommandDone(_) => FailedMeans(h, k, r);
    case PublishTurn => GivenUpMeans(h, k, r);
    case _ =>
    hide At, Complaint, Refusal, Overdue;
  }

  /** Event `i` left the newest reply before `k`, and nothing was published from it on. */
  ghost predicate Stands(h: seq<Event>, k: nat, i: nat)
    requires k <= |h|
  {
    && i < k && SaidAt(h, i).Some?
    && (forall m | i < m < k :: SaidAt(h, m).None?)
    && (forall m | i <= m < k :: !PublishesAt(h, m))
  }

  /** What one event does to the reply: a publication clears the flag, and what is said replaces what waits. */
  lemma {:induction false} ReplyStep(h: seq<Event>, k: nat)
    requires k < |h|
    ensures At(h, k + 1).n.dirty == (!PublishesAt(h, k) && (SaidAt(h, k).Some? || At(h, k).n.dirty))
    ensures !PublishesAt(h, k) ==>
      At(h, k + 1).n.reply == if SaidAt(h, k).Some? then SaidAt(h, k).value else At(h, k).n.reply
  {
    hide Reached, Plus, Tick, Cut;
  }

  lemma {:induction false} DirtyMeansStanding(h: seq<Event>, k: nat)
    requires k <= |h|
    ensures At(h, k).n.dirty <==> exists i :: Stands(h, k, i)
    ensures forall i | Stands(h, k, i) :: SaidAt(h, i) == Some(At(h, k).n.reply)
  {
    if k > 0 {
      var last := k - 1;
      DirtyMeansStanding(h, last);
      ReplyStep(h, last);
      hide Step, SaidAt, PublishesAt;
      forall i: nat | Stands(h, k, i) ensures SaidAt(h, i) == Some(At(h, k).n.reply) && At(h, k).n.dirty {
        assert !PublishesAt(h, last);
        if i < last {
          assert Stands(h, last, i) && SaidAt(h, last).None?;
        }
      }
      if At(h, k).n.dirty {
        assert !PublishesAt(h, last);
        if SaidAt(h, last).Some? {
          assert Stands(h, k, last);
        } else {
          var i: nat :| Stands(h, last, i);
          assert Stands(h, k, i);
        }
      }
    }
  }

  /** What is published is the newest reply, and only if nothing was published since that reply was left. */
  lemma {:induction false} PublishedIsNewest(h: seq<Event>, k: nat, r: Reply)
    requires k < |h| && PublishesAt(h, k)
    ensures PublishedAt(h, k) == Some(r) <==>
      SaidAt(h, k) == Some(r) || (SaidAt(h, k).None? && exists i :: Stands(h, k, i) && SaidAt(h, i) == Some(r))
  {
    DirtyMeansStanding(h, k);
    if SaidAt(h, k).None? && PublishedAt(h, k) == Some(r) {
      var i: nat :| Stands(h, k, i);
      assert SaidAt(h, i) == Some(r);
    }
  }

  function Count(b: bool): nat {
    if b then 1 else 0
  }

  /** How many replies were left, published, and overwritten before they were published, up to `k`. */
  function Left(h: seq<Event>, k: nat): nat
    requires k <= |h|
  {
    if k == 0 then 0 else Left(h, k - 1) + Count(SaidAt(h, k - 1).Some?)
  }

  function Published(h: seq<Event>, k: nat): nat
    requires k <= |h|
  {
    if k == 0 then 0 else Published(h, k - 1) + Count(PublishedAt(h, k - 1).Some?)
  }

  function Overwritten(h: seq<Event>, k: nat): nat
    requires k <= |h|
  {
    if k == 0 then 0 else Overwritten(h, k - 1) + Count(SaidAt(h, k - 1).Some? && At(h, k - 1).n.dirty)
  }

  /** No reply is lost silently or published twice. */
  lemma {:induction false} RepliesConserved(h: seq<Event>, k: nat)
    requires k <= |h|
    ensures Left(h, k) == Published(h, k) + Overwritten(h, k) + Count(At(h, k).n.dirty)
  {
    if k > 0 {
      RepliesConserved(h, k - 1);
    }
  }

  lemma {:induction false} NoReplyIsPublishedAtOnce(h: seq<Event>, k: nat)
    requires k <= |h|
    ensures At(h, k).n.dirty ==> !At(h, k).n.reply.kind.NoReply?
  {
    if k > 0 {
      NoReplyIsPublishedAtOnce(h, k - 1);
    }
  }

  /**
   A no_reply is published exactly when a command waits for its answer and its deadline has come: the command
   was sent and noted, and since then neither an ACK with its id nor a newer command came in.
   */
  lemma {:induction false} NoReplyIsDue(h: seq<Event>, k: nat, r: Reply)
    requires k < |h| && PublishesAt(h, k)
    ensures PublishedAt(h, k) == Some(r) && r.kind.NoReply? <==>
      exists j :: WaitsFor(h, k, j) && Reached(Tick(At(h, k).poll.from), Tick(DueTime(h, j)))
        && r == Reply(NoReply, SentMessage(h, j).request, SentMessage(h, j).action, Cut(NO_REPLY_TEXT), None)
  {
    NoReplyIsPublishedAtOnce(h, k);
    PendingMeansWaiting(h, k);
    if PublishedAt(h, k) == Some(r) && r.kind.NoReply? {
      var j: nat :| WaitsFor(h, k, j);
      assert PendingOn(h, k, j);
    }
    forall j: nat | WaitsFor(h, k, j) ensures PendingOn(h, k, j) {
    }
  }

  /** In real time, while poll and deadline are within half a turn of the clock: not before 8 s have passed. */
  lemma {:induction false} NoReplyNotEarly(h: seq<Event>, k: nat, j: nat)
    requires k < |h| && PublishesAt(h, k) && WaitsFor(h, k, j)
    requires -HALF <= At(h, k).poll.from - DueTime(h, j) < HALF
    ensures PublishedAt(h, k).Some? && PublishedAt(h, k).value.kind.NoReply? <==>
      At(h, k).poll.from >= h[j].time + 8000
  {
    NoReplyIsPublishedAtOnce(h, k);
    PendingMeansWaiting(h, k);
    assert PendingOn(h, k, j);
    ReachedAgrees(At(h, k).poll.from, DueTime(h, j));
  }

  // ----------------------------------------------------------------- the node's address

  function LastHeard(h: seq<Event>, k: nat): Option<Mac>
    requires k <= |h|
  {
    if k == 0 then None else if h[k - 1].Packet? then Some(h[k - 1].mac) else LastHeard(h, k - 1)
  }

  /** The address is that of the last packet; whoever waits, sends or wants to read has one. */
  lemma {:induction false} AddressKnown(h: seq<Event>, k: nat)
    requires k <= |h|
    ensures var s := At(h, k);
      && s.n.mac == LastHeard(h, k)
      && (s.n.pending || s.n.wantRead || !s.mqtt.Idle? || s.poll.Reading? ==> s.n.mac.Some?)
  {
    if k > 0 {
      AddressKnown(h, k - 1);
    }
  }

  /** A command goes out exactly if the parser took it and a packet has come, to the address of the last packet. */
  lemma {:induction false} CommandGoesOut(h: seq<Event>, k: nat)
    requires k < |h| && h[k].CommandTaken? && At(h, k).mqtt.Idle?
    ensures At(h, k + 1).mqtt ==
      if h[k].bad.None? && LastHeard(h, k).Some? then Sending(h[k].msg, LastHeard(h, k).value) else Idle
  {
    AddressKnown(h, k);
    hide LastHeard, Cut;
  }

  // ----------------------------------------------------------------- the automatic read

  predicate NewAddressAt(h: seq<Event>, p: nat)
    requires p < |h|
  {
    h[p].Packet? && LastHeard(h, p) != Some(h[p].mac)
  }

  predicate AckAt(h: seq<Event>, q: nat)
    requires q < |h|
  {
    h[q].Packet? && h[q].ack.Some?
  }

  ghost predicate Unread(h: seq<Event>, k: nat, p: nat)
    requires k <= |h|
  {
    p < k && NewAddressAt(h, p) && forall q | p <= q < k :: !AckAt(h, q)
  }

  /** A read is wanted exactly while the node has not answered anything since its address was new. */
  lemma {:induction false} WantsReadUntilAck(h: seq<Event>, k: nat)
    requires k <= |h|
    ensures At(h, k).n.wantRead <==> exists p :: Unread(h, k, p)
  {
    if k > 0 {
      var last := k - 1;
      WantsReadUntilAck(h, last);
      AddressKnown(h, last);
      if At(h, k).n.wantRead {
        if NewAddressAt(h, last) {
          assert Unread(h, k, last);
        } else {
          var p: nat :| Unread(h, last, p);
          assert Unread(h, k, p);
        }
      }
      if p: nat :| Unread(h, k, p) {
        assert !AckAt(h, last);
        if p < last {
          assert Unread(h, last, p);
        }
      }
    }
  }

  /** Event `k` decides to ask for the settings. */
  predicate DecidedAt(h: seq<Event>, k: nat)
    requires k < |h|
  {
    h[k].ReadTurn? && At(h, k).poll.Outside? && ReadDue(At(h, k).n, Tick(h[k].now))
  }

  /** When the next automatic read may go out, in real time. */
  function NextReadTime(h: seq<Event>, k: nat): nat
    requires k <= |h|
  {
    if k == 0 then 0
    else if NewAddressAt(h, k - 1) then h[k - 1].rx
    else if DecidedAt(h, k - 1) then h[k - 1].now + READ_RETRY
    else NextReadTime(h, k - 1)
  }

  lemma {:induction false} NextReadIsKept(h: seq<Event>, k: nat)
    requires k <= |h|
    ensures At(h, k).n.nextRead == Tick(NextReadTime(h, k))
  {
    if k > 0 {
      NextReadIsKept(h, k - 1);
      AddressKnown(h, k - 1);
      if DecidedAt(h, k - 1) {
        PlusIsLater(h[k - 1].now, READ_RETRY);
      }
    }
  }

  /** A decision to read: only on demand, to a known address, with no command pending, and not before its time. */
  lemma {:induction false} DecisionIsJustified(h: seq<Event>, k: nat)
    requires k < |h| && h[k].ReadTurn? && At(h, k).poll.Outside?
    requires -HALF <= h[k].now - NextReadTime(h, k) < HALF
    ensures DecidedAt(h, k) <==>
      (exists p :: Unread(h, k, p)) && !(exists j :: WaitsFor(h, k, j)) && h[k].now >= NextReadTime(h, k)
  {
    WantsReadUntilAck(h, k);
    PendingMeansWaiting(h, k);
    AddressKnown(h, k);
    NextReadIsKept(h, k);
    ReachedAgrees(h[k].now, NextReadTime(h, k));
  }

  /** Between two decisions to read the same node lie at least 30 s. */
  lemma {:induction false} ReadsAreSpaced(h: seq<Event>, d: nat, k: nat)
    requires d < k < |h| && DecidedAt(h, d) && DecidedAt(h, k)
    requires forall i | d < i < k :: !NewAddressAt(h, i)
    requires forall i | d < i <= k && DecidedAt(h, i) :: -HALF <= h[i].now - NextReadTime(h, i) < HALF
    ensures h[k].now >= h[d].now + 30_000
  {
    NextReadGrows(h, d, k);
    NextReadIsKept(h, k);
    ReachedAgrees(h[k].now, NextReadTime(h, k));
  }

  lemma {:induction false} NextReadGrows(h: seq<Event>, d: nat, k: nat)
    requires d < k < |h| && DecidedAt(h, d)
    requires forall i | d < i < k :: !NewAddressAt(h, i)
    requires forall i | d < i < k && DecidedAt(h, i) :: -HALF <= h[i].now - NextReadTime(h, i) < HALF
    ensures NextReadTime(h, k) >= h[d].now + READ_RETRY
  {
    if k - 1 > d {
      NextReadGrows(h, d, k - 1);
      if DecidedAt(h, k - 1) {
        NextReadIsKept(h, k - 1);
        ReachedAgrees(h[k - 1].now, NextReadTime(h, k - 1));
      }
    }
  }

  // ----------------------------------------------------------------- a read on the air while a command waits

  /** The telemetry task is between deciding at `d` and sending. */
  ghost predicate DecidedSince(h: seq<Event>, k: nat, d: nat)
    requires k <= |h|
  {
    && d < k && DecidedAt(h, d)
    && At(h, k).poll == Reading(h[d].now, At(h, d).n.mac.value)
    && forall i | d < i < k :: At(h, i).poll.Reading?
  }

  lemma {:induction false} ReadingWasDecided(h: seq<Event>, k: nat)
    requires k <= |h| && At(h, k).poll.Reading?
    ensures exists d :: DecidedSince(h, k, d)
  {
    var last := k - 1;
    if At(h, last).poll.Reading? {
      ReadingWasDecided(h, last);
      var d: nat :| DecidedSince(h, last, d);
      assert DecidedSince(h, k, d);
    } else {
      assert DecidedSince(h, k, last);
    }
  }

  lemma {:induction false} WaitedEarlier(h: seq<Event>, k: nat, d: nat, j: nat)
    requires j < d <= k <= |h| && WaitsFor(h, k, j)
    ensures WaitsFor(h, d, j)
  {
  }

  /**
   The decision is never taken while a command is pending, but the read goes out later, outside the lock. It
   meets a pending command exactly when that command was noted in the gap and still waits.
   */
  lemma {:induction false} ReadMeetsPending(h: seq<Event>, k: nat) returns (d: nat)
    requires k < |h| && h[k].ReadRadio? && At(h, k).poll.Reading?
    ensures DecidedSince(h, k, d) && !At(h, d).n.pending
    ensures At(h, k).n.pending <==> exists j :: d < j && WaitsFor(h, k, j)
  {
    ReadingWasDecided(h, k);
    d :| DecidedSince(h, k, d);
    PendingMeansWaiting(h, k);
    PendingMeansWaiting(h, d);
    forall j: nat | WaitsFor(h, k, j) ensures d < j {
      if j < d {
        WaitedEarlier(h, k, d, j);
      }
    }
  }

  /** And that does happen: a command sent while the telemetry task was between its two steps. */
  lemma {:induction false} ReadSentWhilePending() returns (h: seq<Event>, k: nat)
    ensures Legal(h) && k < |h| && h[k].ReadRadio? && At(h, k).n.pending
  {
    var msg := ReadRequest(1).(request := 7);
    h := [Packet(1, 0, None), CommandTaken(msg, None), CommandRadio(None), ReadTurn(0), CommandDone(0), ReadRadio];
    k := 5;
    var s1 := At(h, 1);
    assert At(h, 0) == State(START, Idle, Outside);
    assert Hear(START, 1, Tick(0), None) == START.(mac := Some(1), wantRead := true);
    assert s1 == State(START.(mac := Some(1), wantRead := true), Idle, Outside);
    assert Refusal(s1.n, msg, None).None?;
    assert Step(s1, h[1]) == s1.(mqtt := Sending(msg, 1));
    assert At(h, 2) == s1.(mqtt := Sending(msg, 1));
    assert At(h, 3) == s1.(mqtt := Sent(msg, None));
    var n := s1.n.(nextRead := 30000);
    assert At(h, 4) == State(n, Sent(msg, None), Reading(0, 1));
    var n5 := n.(pending := true, pendingRequest := 7, pendingAction := READ, deadline := 8000);
    assert At(h, 5) == State(n5, Idle, Reading(0, 1));
  }

  /** The command that event `j` notes went out at event `r`. */
  ghost predicate RadioedAt(h: seq<Event>, j: nat, r: nat)
    requires j <= |h|
  {
    && r < j && h[r].CommandRadio? && At(h, r).mqtt.Sending?
    && forall i | r < i <= j :: At(h, i).mqtt == Sent(At(h, r).mqtt.msg, h[r].err)
  }

  lemma {:induction false} SentWasRadioed(h: seq<Event>, j: nat)
    requires j <= |h| && At(h, j).mqtt.Sent?
    ensures exists r :: RadioedAt(h, j, r)
  {
    var last := j - 1;
    if At(h, last).mqtt.Sent? {
      SentWasRadioed(h, last);
      var r: nat :| RadioedAt(h, last, r);
      assert RadioedAt(h, j, r);
    } else {
      assert RadioedAt(h, j, last);
    }
  }

  /** An ACK with this id came in between the two events. */
  ghost predicate AnsweredBetween(h: seq<Event>, a: nat, b: nat, request: word)
    requires b <= |h|
  {
    exists i: nat :: a < i < b && AckAt(h, i) && h[i].ack.value.request == request
  }

  /**
   A no_reply is wrong when the node has answered since the command went out. That happens exactly when the
   answer came in between the send and its note, outside the lock: the note then begins to wait for an answer that
   has been and gone.
   */
  lemma {:induction false} NoReplyDespiteAnswer(h: seq<Event>, k: nat, reply: Reply) returns (j: nat, r: nat)
    requires k < |h| && PublishedAt(h, k) == Some(reply) && reply.kind.NoReply?
    ensures WaitsFor(h, k, j) && RadioedAt(h, j, r)
    ensures reply.request == SentMessage(h, j).request && reply.action == SentMessage(h, j).action
    ensures AnsweredBetween(h, r, k, reply.request) <==> AnsweredBetween(h, r, j, reply.request)
  {
    NoReplyIsDue(h, k, reply);
    j :| WaitsFor(h, k, j)
      && reply == Reply(NoReply, SentMessage(h, j).request, SentMessage(h, j).action, Cut(NO_REPLY_TEXT), None);
    SentWasRadioed(h, j);
    r :| RadioedAt(h, j, r);
    if i: nat :| r < i < k && AckAt(h, i) && h[i].ack.value.request == reply.request {
      assert i > j ==> !EndsAt(h, j, i);
      assert i < j;
    }
  }

  const EARLY_MSG := Config(1, 7, READ, {}, 0, 0, ZERO_PARAMS)
  const EARLY_ACK := Ack(7, READ, Done, 0, false, ZERO_PARAMS)
  const HEARD := START.(mac := Some(1), wantRead := true)
  const ANSWERED := HEARD.(wantRead := false, dirty := true, reply := Reply(FromNode, 7, READ, "", Some(EARLY_ACK)))
  const WAITING := ANSWERED.(pending := true, pendingRequest := 7, pendingAction := READ, deadline := 8010)

  const EARLY_ANSWER := [
    Packet(1, 0, None), CommandTaken(EARLY_MSG, None), CommandRadio(None), Packet(1, 10, Some(EARLY_ACK)),
    CommandDone(10), ReadTurn(8010), PublishTurn]

  lemma {:induction false} EarlyAnswerBegins()
    ensures At(EARLY_ANSWER, 0) == State(START, Idle, Outside)
    ensures At(EARLY_ANSWER, 1) == State(HEARD, Idle, Outside)
    ensures At(EARLY_ANSWER, 2) == State(HEARD, Sending(EARLY_MSG, 1), Outside)
    ensures At(EARLY_ANSWER, 3) == State(HEARD, Sent(EARLY_MSG, None), Outside)
  {
    assert Hear(START, 1, Tick(0), None) == HEARD;
    assert Refusal(HEARD, EARLY_MSG, None).None?;
  }

  lemma {:induction false} EarlyAnswerStates()
    ensures At(EARLY_ANSWER, 4) == State(ANSWERED, Sent(EARLY_MSG, None), Outside)
    ensures At(EARLY_ANSWER, 5) == State(WAITING, Idle, Outside)
    ensures At(EARLY_ANSWER, 6) == State(WAITING, Idle, Publishing(8010))
  {
    EarlyAnswerBegins();
  }

  /**
   An answer that arrives between the send and its note is not counted: the note then waits for nothing, and
   the no_reply written over the answer is all that is ever published.
   */
  lemma {:induction false} AnswerBeforeNoteIsLost() returns (h: seq<Event>, ack: Ack)
    ensures Legal(h) && |h| == 7 && h[2] == CommandRadio(None) && h[3] == Packet(1, 10, Some(ack)) && SentAt(h, 4)
    ensures ack.request == SentMessage(h, 4).request
    ensures forall k | 0 <= k < 6 :: PublishedAt(h, k).None?
    ensures PublishedAt(h, 6) == Some(Reply(NoReply, ack.request, ack.action, Cut(NO_REPLY_TEXT), None))
  {
    h, ack := EARLY_ANSWER, EARLY_ACK;
    EarlyAnswerBegins();
    EarlyAnswerStates();
    hide At, Cut, NO_REPLY_TEXT;
  }

  // ----------------------------------------------------------------- the shared table

  /** One entry of the table; `Value` is the record that the events above speak of. */
  class Record {
    const nodeId: nat
    var hasMac: bool
    var mac: Mac
    var wantRead: bool
    var nextRead: U32
    var pending: bool
    var pendingRequest: word
    var pendingAction: byte
    var deadline: U32
    var dirty: bool
    var reply: Reply

    function Value(): Entry
      reads this
    {
      Entry(if hasMac then Some(mac) else None, wantRead, nextRead, pending, pendingRequest, pendingAction, deadline,
          dirty, reply)
    }

    constructor (id: nat)
      ensures nodeId == id && Value() == START
    {
      nodeId := id;
      hasMac, mac, wantRead, nextRead := false, 0, false, 0;
      pending, pendingRequest, pendingAction, deadline := false, 0, 0, 0;
      dirty, reply := false, EMPTY_REPLY;
    }

    method SetReply(kind: Kind, request: word, action: byte, error: string)
      modifies this`dirty, this`reply
      ensures dirty && reply == Reply(kind, request, action, Cut(error), None)
    {
      dirty := true;
      reply := Reply(kind, request, action, Cut(error), None);
    }

    /** `peer` is the address to send to, if there is one and nothing was refused. */
    method OnCommand(msg: Config, bad: Option<string>) returns (peer: Option<Mac>)
      modifies this
      ensures Value() == TakeCommand(old(Value()), msg, bad)
      ensures peer == if Refusal(old(Value()), msg, bad).Some? then None else old(Value()).mac
    {
      peer := None;
      if bad.Some? {
        SetReply(Rejected, msg.request, msg.action, bad.value);
      } else if !hasMac {
        SetReply(UnknownNode, msg.request, msg.action, UNKNOWN_TEXT);
      } else {
        peer := Some(mac);
      }
    }

    method OnCommandGone(msg: Config, failure: Option<string>, now: U32)
      modifies this
      ensures Value() == CommandGone(old(Value()), msg, failure, now)
    {
      if failure.Some? {
        SetReply(SendFailed, msg.request, msg.action, failure.value);
      } else {
        pending, pendingRequest, pendingAction := true, msg.request, msg.action;
        deadline := Plus(now, REPLY_TIMEOUT);
      }
    }

    method OnPacket(src: Mac, rx: U32, ack: Option<Ack>)
      modifies this`hasMac, this`mac, this`wantRead, this`nextRead, this`pending, this`dirty, this`reply
      ensures Value() == Hear(old(Value()), src, rx, ack)
    {
      if !hasMac || mac != src {
        mac, hasMac, wantRead, nextRead := src, true, true, rx;
      }
      if ack.Some? {
        TakeAck(ack.value);
      }
    }

    method TakeAck(ack: Ack)
      modifies this`wantRead, this`pending, this`dirty, this`reply
      ensures !wantRead && pending == (old(pending) && ack.request != pendingRequest)
      ensures dirty && reply == Reply(FromNode, ack.request, ack.action, "", Some(ack))
    {
      hide Cut;
      NothingToCut();
      if pending && ack.request == pendingRequest {
        pending := false;
      }
      SetReply(FromNode, ack.request, ack.action, "");
      reply := reply.(ack := Some(ack));
      wantRead := false;
    }

    /** The telemetry task's first section; `peer` is the address to ask, if it is time. */
    method AskForSettings(now: U32) returns (peer: Option<Mac>)
      modifies this`nextRead
      ensures Value() == DecideRead(old(Value()), now)
      ensures peer == if ReadDue(old(Value()), now) then old(Value()).mac else None
    {
      peer := None;
      if wantRead && hasMac && !pending && Reached(now, nextRead) {
        peer := Some(mac);
        nextRead := Plus(now, READ_RETRY);
      }
    }

    /** Its second section. */
    method NextReply(now: U32) returns (out: Option<Reply>)
      modifies this`pending, this`dirty, this`reply
      ensures Value() == ReplyTurn(old(Value()), now) && out == Publish(old(Value()), now)
    {
      if pending && Reached(now, deadline) {
        pending := false;
        SetReply(NoReply, pendingRequest, pendingAction, NO_REPLY_TEXT);
      }
      out := if dirty then Some(reply) else None;
      dirty := false;
    }
  }

  /** What one uninterrupted turn of the telemetry task makes of a record. */
  function Polled(n: Entry, now: U32): Entry {
    ReplyTurn(DecideRead(n, now), now)
  }

  function Answer(n: Entry, now: U32): Option<Reply> {
    Publish(DecideRead(n, now), now)
  }

  lemma {:induction false} DueHasAddress(n: Entry, now: U32)
    ensures ReadDue(n, now) ==> n.mac.Some?
  {
  }

  class Table {
    const nodes: seq<Record>

    ghost predicate Valid() {
      forall i, j | 0 <= i < j < |nodes| :: nodes[i] != nodes[j]
    }

    constructor (records: seq<Record>)
      requires forall i, j | 0 <= i < j < |records| :: records[i] != records[j]
      ensures Valid() && nodes == records
    {
      nodes := records;
    }

    /** The first record with that id, or none. */
    method Find(id: nat) returns (i: nat)
      ensures i <= |nodes| && (i < |nodes| ==> nodes[i].nodeId == id)
      ensures forall j | 0 <= j < i :: nodes[j].nodeId != id
    {
      i := 0;
      while i < |nodes| && nodes[i].nodeId != id
        invariant i <= |nodes| && forall j | 0 <= j < i :: nodes[j].nodeId != id
      {
        i := i + 1;
      }
    }

    /** A packet of a presence node that has an address changes the record of its sender and no other. */
    method Dispatch(presence: bool, id: nat, src: Mac, rx: U32, ack: Option<Ack>) returns (ghost at: nat)
      requires Valid()
      modifies nodes
      ensures at <= |nodes| && forall j | 0 <= j < |nodes| ::
        nodes[j].Value() == if j == at then Hear(old(nodes[j].Value()), src, rx, ack) else old(nodes[j].Value())
      ensures at < |nodes| ==> presence && src != 0 && nodes[at].nodeId == id
      ensures at < |nodes| ==> forall j | 0 <= j < at :: nodes[j].nodeId != id
      ensures at == |nodes| && presence && src != 0 ==> forall j | 0 <= j < |nodes| :: nodes[j].nodeId != id
    {
      if !presence || src == 0 {
        return |nodes|;
      }
      var i := Find(id);
      at := i;
      if i < |nodes| {
        nodes[i].OnPacket(src, rx, ack);
      }
    }

    /**
     One call of the poll, undisturbed: the records in order, up to the first that has a reply. `asked` lists
     the records whose node was asked for its settings.
     */
    method Poll(now: U32) returns (found: Option<nat>, reply: Reply, asked: seq<nat>)
      requires Valid()
      modifies nodes
      ensures found.Some? ==> found.value < |nodes| && Answer(old(nodes[found.value].Value()), now) == Some(reply)
      ensures forall j | 0 <= j < (if found.Some? then found.value else |nodes|) ::
        Answer(old(nodes[j].Value()), now).None?
      ensures forall j | 0 <= j < |nodes| ::
        nodes[j].Value() ==
          if found.Some? && j > found.value then old(nodes[j].Value()) else Polled(old(nodes[j].Value()), now)
      ensures forall j :: j in asked <==>
        0 <= j < |nodes| && (found.Some? ==> j <= found.value) && ReadDue(old(nodes[j].Value()), now)
    {
      hide DecideRead, ReplyTurn, Publish, ReadDue, Record.Value;
      var i := 0;
      found, reply, asked := None, EMPTY_REPLY, [];
      while i < |nodes|
        invariant 0 <= i <= |nodes|
        invariant forall j | 0 <= j < i :: Answer(old(nodes[j].Value()), now).None?
        invariant forall j | 0 <= j < i :: nodes[j].Value() == Polled(old(nodes[j].Value()), now)
        invariant forall j | i <= j < |nodes| :: nodes[j].Value() == old(nodes[j].Value())
        invariant forall j :: j in asked <==> 0 <= j < i && ReadDue(old(nodes[j].Value()), now)
      {
        DueHasAddress(nodes[i].Value(), now);
        var peer := nodes[i].AskForSettings(now);
        if peer.Some? {
          asked := asked + [i];
        }
        var out := nodes[i].NextReply(now);
        if out.Some? {
          return Some(i), out.value, asked;
        }
        i := i + 1;
      }
    }
  }
}
