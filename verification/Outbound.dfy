/** The two ways bytes reach one client's socket: direct writes while its connection logs in, and the
    outbound channel its sender worker drains (openaimp-fsd/fsd/client.go, openaimp-fsd/fsd/conn.go).
    A run interleaves the connection's goroutine, the worker and any number of senders. */
module Outbound {
  import opened Results

  const CHANNEL_CAPACITY := 32

  /** The connection's goroutine. */
  datatype Main =
    | Connecting  // login packets are exchanged over the socket; nobody else knows the client
    | Welcoming   // registered, the welcome message is being written
    | Serving     // in the event loop, the worker started
    | Ending      // the event loop is over, or never began
    | Closed

  datatype Worker = NotStarted | Waiting | Holding(packet: string) | Quitting | Done

  datatype Sent = Sent(sender: nat, packet: string)

  /** `socket` is what has been written. The histories: `direct` the packets given to direct writes,
      `asked` the calls of send, `entered` the packets that entered the channel, `dropped` the calls
      that ended in a context error; `taken` counts the worker's receives. */
  datatype State = State(
    main: Main, worker: Worker, cancelled: bool, closed: bool,
    socket: string, queue: seq<string>, pending: map<nat, string>,
    direct: seq<string>, asked: seq<Sent>, entered: seq<Sent>, dropped: seq<Sent>, taken: nat)

  datatype Step =
    | WriteDirect(packet: string)
    | FailDirect(packet: string, part: nat)  // the error comes after `part` bytes
    | Register
    | Serve
    | Abandon
    | Leave
    | Close
    | Ask(sender: nat, packet: string)
    | Enter(sender: nat)
    | GiveUp(sender: nat)
    | Take
    | Write
    | FailWrite(part: nat)
    | NoticeCancel
    | Quit
    | Cancel  // server shutdown, a kill request, a forbidden facility

  const Init := State(Connecting, NotStarted, false, false, "", [], map[], [], [], [], [], 0)

  predicate LoggingIn(main: Main) {
    main.Connecting? || main.Welcoming?
  }

  /** How much a failing write may have written: nothing once the connection is closed. */
  predicate Partial(s: State, packet: string, part: nat) {
    part <= |packet| && (s.closed ==> part == 0)
  }

  function WriteStep(s: State, step: Step): Option<State> {
    match step
    case WriteDirect(packet) =>
      if LoggingIn(s.main) && !s.closed then
        Some(s.(socket := s.socket + packet, direct := s.direct + [packet]))
      else None
    case FailDirect(packet, part) =>
      if LoggingIn(s.main) && Partial(s, packet, part) then
        Some(s.(socket := s.socket + packet[..part], direct := s.direct + [packet], main := Ending))
      else None
    case Take =>
      if s.worker.Waiting? && s.queue != [] then
        Some(s.(worker := Holding(s.queue[0]), queue := s.queue[1..], taken := s.taken + 1))
      else None
    case Write =>
      if s.worker.Holding? && !s.closed then
        Some(s.(worker := Waiting, socket := s.socket + s.worker.packet))
      else None
    case FailWrite(part) =>
      if s.worker.Holding? && Partial(s, s.worker.packet, part) then
        Some(s.(worker := Quitting, socket := s.socket + s.worker.packet[..part]))
      else None
    case _ => None
  }

  function SendStep(s: State, step: Step): Option<State> {
    match step
    case Ask(sender, packet) =>
      if !s.main.Connecting? && sender !in s.pending then
        Some(s.(pending := s.pending[sender := packet], asked := s.asked + [Sent(sender, packet)]))
      else None
    case Enter(sender) =>
      if sender in s.pending && |s.queue| < CHANNEL_CAPACITY then
        Some(s.(pending := s.pending - {sender}, queue := s.queue + [s.pending[sender]],
                entered := s.entered + [Sent(sender, s.pending[sender])]))
      else None
    case GiveUp(sender) =>
      if sender in s.pending && s.cancelled then
        Some(s.(pending := s.pending - {sender}, dropped := s.dropped + [Sent(sender, s.pending[sender])]))
      else None
    case _ => None
  }

  function ControlStep(s: State, step: Step): Option<State> {
    match step
    case Register => if s.main.Connecting? then Some(s.(main := Welcoming)) else None
    case Serve => if s.main.Welcoming? then Some(s.(main := Serving, worker := Waiting)) else None
    case Abandon => if LoggingIn(s.main) then Some(s.(main := Ending)) else None
    case Leave => if s.main.Serving? then Some(s.(main := Ending, cancelled := true)) else None
    case Close => if s.main.Ending? then Some(s.(main := Closed, closed := true)) else None
    case NoticeCancel => if s.worker.Waiting? && s.cancelled then Some(s.(worker := Quitting)) else None
    case Quit => if s.worker.Quitting? then Some(s.(worker := Done, cancelled := true, closed := true)) else None
    case Cancel => Some(s.(cancelled := true))
    case _ => None
  }

  /** One step of the run; None when it cannot be taken now. */
  function Next(s: State, step: Step): Option<State> {
    match step
    case WriteDirect(_) | FailDirect(_, _) | Take | Write | FailWrite(_) => WriteStep(s, step)
    case Ask(_, _) | Enter(_) | GiveUp(_) => SendStep(s, step)
    case _ => ControlStep(s, step)
  }

  function RunFrom(s: State, steps: seq<Step>): Option<State>
    decreases |steps|
  {
    if steps == [] then Some(s)
    else
      match Next(s, steps[0])
      case None => None
      case Some(s') => RunFrom(s', steps[1..])
  }

  ghost predicate Reachable(s: State) {
    exists steps :: RunFrom(Init, steps) == Some(s)
  }

  // ----- what is in the histories -----

  function Bytes(packets: seq<string>): string {
    if packets == [] then "" else Bytes(packets[..|packets| - 1]) + packets[|packets| - 1]
  }

  function PacketsOf(log: seq<Sent>): (packets: seq<string>)
    ensures |packets| == |log|
  {
    seq(|log|, i requires 0 <= i < |log| => log[i].packet)
  }

  /** The packets of one sender, in order. */
  function By(log: seq<Sent>, sender: nat): seq<string> {
    if log == [] then []
    else
      var last := log[|log| - 1];
      By(log[..|log| - 1], sender) + if last.sender == sender then [last.packet] else []
  }

  function PendingOf(s: State, sender: nat): seq<string> {
    if sender in s.pending then [s.pending[sender]] else []
  }

  lemma BytesAppend(packets: seq<string>, packet: string)
    ensures Bytes(packets + [packet]) == Bytes(packets) + packet
  {
    assert (packets + [packet])[..|packets|] == packets;
  }

  lemma {:induction false} BytesConcat(p: seq<string>, q: seq<string>)
    ensures Bytes(p + q) == Bytes(p) + Bytes(q)
  {
    if q == [] {
      assert p + q == p;
    } else {
      var init, last := q[..|q| - 1], q[|q| - 1];
      BytesConcat(p, init);
      assert p + q == (p + init) + [last] && q == init + [last];
      BytesAppend(p + init, last);
      BytesAppend(init, last);
    }
  }

  lemma ByAppend(log: seq<Sent>, e: Sent, sender: nat)
    ensures By(log + [e], sender) == By(log, sender) + if e.sender == sender then [e.packet] else []
  {
    assert (log + [e])[..|log|] == log;
  }

  // ----- the invariant -----

  /** The packets the worker has received and fully written. */
  function Written(s: State): seq<string>
    requires s.taken <= |s.entered| && (s.worker.Holding? ==> s.taken > 0)
  {
    PacketsOf(s.entered)[..if s.worker.Holding? then s.taken - 1 else s.taken]
  }

  /** The channel holds what entered and was not taken, in order and at most its capacity. */
  ghost predicate ChannelSound(s: State) {
    && |s.queue| <= CHANNEL_CAPACITY
    && s.taken <= |s.entered|
    && s.queue == PacketsOf(s.entered)[s.taken..]
    && (s.worker.Holding? ==> s.taken > 0 && s.worker.packet == PacketsOf(s.entered)[s.taken - 1])
  }

  /** The worker runs only after the login is over, and its end ends the client. */
  ghost predicate PhasesSound(s: State) {
    && (LoggingIn(s.main) ==> s.worker.NotStarted?)
    && (s.main.Serving? ==> !s.worker.NotStarted?)
    && (s.worker.NotStarted? ==> s.taken == 0)
    && (s.worker.Done? ==> s.cancelled && s.closed)
    && (s.main.Connecting? ==> s.asked == [])
  }

  /** Exactly what has been written, up to a last write that failed. */
  ghost predicate SocketSound(s: State)
    requires s.taken <= |s.entered| && (s.worker.Holding? ==> s.taken > 0)
  {
    var whole := Bytes(s.direct) + Bytes(Written(s));
    match s.worker
    case Waiting => s.socket == whole
    case Holding(_) => s.socket == whole
    case NotStarted => if LoggingIn(s.main) then s.socket == whole else s.socket <= whole
    case _ => Bytes(s.direct) <= s.socket <= whole
  }

  /** One sender's calls: none is lost, doubled or overtaken by a later one while the client is live,
      and each has entered, been dropped or is pending. */
  ghost predicate Tally(asked: seq<string>, entered: seq<string>, dropped: seq<string>, pending: seq<string>, live: bool) {
    && (live ==> asked == entered + pending)
    && multiset(asked) == multiset(entered) + multiset(dropped) + multiset(pending)
  }

  ghost predicate SenderSound(s: State, sender: nat) {
    Tally(By(s.asked, sender), By(s.entered, sender), By(s.dropped, sender), PendingOf(s, sender), !s.cancelled)
  }

  ghost predicate Inv(s: State) {
    && ChannelSound(s) && PhasesSound(s) && SocketSound(s)
    && forall sender: nat :: SenderSound(s, sender)
  }

  lemma DirectKeepsSocket(s: State, step: Step, s': State)
    requires ChannelSound(s) && PhasesSound(s) && SocketSound(s) && WriteStep(s, step) == Some(s')
    requires step.WriteDirect? || step.FailDirect?
    ensures ChannelSound(s') && PhasesSound(s') && SocketSound(s')
  {
    BytesAppend(s.direct, step.packet);
    assert Written(s) == [] && Written(s') == [] && Bytes([]) == "";
    hide Bytes, PacketsOf, Written;
    assert s.socket == Bytes(s.direct);
    if step.FailDirect? {
      assert step.packet[..step.part] <= step.packet;
    }
  }

  lemma TakeKeepsSocket(s: State, s': State)
    requires ChannelSound(s) && PhasesSound(s) && SocketSound(s) && WriteStep(s, Take) == Some(s')
    ensures ChannelSound(s') && PhasesSound(s') && SocketSound(s')
  {
    hide Bytes;
    var all := PacketsOf(s.entered);
    hide PacketsOf;
    assert all[s.taken..][1..] == all[s.taken + 1..];
    assert Written(s') == Written(s);
  }

  lemma WorkerKeepsSocket(s: State, step: Step, s': State)
    requires ChannelSound(s) && PhasesSound(s) && SocketSound(s) && WriteStep(s, step) == Some(s')
    requires step.Write? || step.FailWrite?
    ensures ChannelSound(s') && PhasesSound(s') && SocketSound(s')
  {
    WrittenGrows(s, s');
    hide Bytes, PacketsOf;
    assert Bytes(s.direct) + (Bytes(Written(s)) + s.worker.packet) == s.socket + s.worker.packet;
  }

  lemma WrittenGrows(s: State, s': State)
    requires ChannelSound(s) && s.worker.Holding? && !s'.worker.Holding?
    requires s'.entered == s.entered && s'.taken == s.taken
    ensures Bytes(Written(s')) == Bytes(Written(s)) + s.worker.packet
  {
    assert Written(s') == Written(s) + [s.worker.packet];
    BytesAppend(Written(s), s.worker.packet);
  }

  lemma SendKeepsChannel(s: State, step: Step, s': State)
    requires ChannelSound(s) && PhasesSound(s) && SocketSound(s) && SendStep(s, step) == Some(s')
    ensures ChannelSound(s') && PhasesSound(s') && SocketSound(s')
  {
    hide Bytes;
    if step.Enter? {
      assert PacketsOf(s'.entered) == PacketsOf(s.entered) + [s.pending[step.sender]];
    }
    assert Written(s') == Written(s);
  }

  lemma ControlKeepsSocket(s: State, step: Step, s': State)
    requires ChannelSound(s) && PhasesSound(s) && SocketSound(s) && ControlStep(s, step) == Some(s')
    ensures ChannelSound(s') && PhasesSound(s') && SocketSound(s')
  {
    hide Bytes, PacketsOf;
    assert Written(s') == Written(s);
    if step.Serve? {
      assert s.socket == Bytes(s.direct) + Bytes(Written(s));
    }
  }

  lemma TallyAsks(asked: seq<string>, entered: seq<string>, dropped: seq<string>, packet: string, live: bool)
    requires Tally(asked, entered, dropped, [], live)
    ensures Tally(asked + [packet], entered, dropped, [packet], live)
  {
  }

  lemma TallyEnters(asked: seq<string>, entered: seq<string>, dropped: seq<string>, packet: string, live: bool)
    requires Tally(asked, entered, dropped, [packet], live)
    ensures Tally(asked, entered + [packet], dropped, [], live)
  {
  }

  lemma TallyDrops(asked: seq<string>, entered: seq<string>, dropped: seq<string>, packet: string)
    requires Tally(asked, entered, dropped, [packet], false)
    ensures Tally(asked, entered, dropped + [packet], [], false)
  {
  }

  lemma SendKeepsSender(s: State, step: Step, s': State, sender: nat)
    requires SenderSound(s, sender) && SendStep(s, step) == Some(s')
    ensures SenderSound(s', sender)
  {
    hide By, Tally;
    match step
    case Ask(who, packet) =>
      ByAppend(s.asked, Sent(who, packet), sender);
      if who == sender {
        TallyAsks(By(s.asked, sender), By(s.entered, sender), By(s.dropped, sender), packet, !s.cancelled);
      } else {
        assert By(s.asked, sender) + [] == By(s.asked, sender);
      }
    case Enter(who) =>
      ByAppend(s.entered, Sent(who, s.pending[who]), sender);
      if who == sender {
        TallyEnters(By(s.asked, sender), By(s.entered, sender), By(s.dropped, sender), s.pending[who], !s.cancelled);
      } else {
        assert By(s.entered, sender) + [] == By(s.entered, sender);
      }
    case GiveUp(who) =>
      ByAppend(s.dropped, Sent(who, s.pending[who]), sender);
      if who == sender {
        TallyDrops(By(s.asked, sender), By(s.entered, sender), By(s.dropped, sender), s.pending[who]);
      } else {
        assert By(s.dropped, sender) + [] == By(s.dropped, sender);
      }
    case _ =>
  }

  lemma OthersKeepSender(s: State, step: Step, s': State, sender: nat)
    requires SenderSound(s, sender) && (WriteStep(s, step) == Some(s') || ControlStep(s, step) == Some(s'))
    ensures SenderSound(s', sender)
  {
    hide By;
  }

  lemma StepKeepsSender(s: State, step: Step, s': State, sender: nat)
    requires SenderSound(s, sender) && Next(s, step) == Some(s')
    ensures SenderSound(s', sender)
  {
    hide SenderSound, WriteStep, SendStep, ControlStep;
    if SendStep(s, step) == Some(s') {
      SendKeepsSender(s, step, s', sender);
    } else {
      OthersKeepSender(s, step, s', sender);
    }
  }

  lemma StepKeepsSocket(s: State, step: Step, s': State)
    requires ChannelSound(s) && PhasesSound(s) && SocketSound(s) && Next(s, step) == Some(s')
    ensures ChannelSound(s') && PhasesSound(s') && SocketSound(s')
  {
    hide ChannelSound, PhasesSound, SocketSound, WriteStep, SendStep, ControlStep;
    match step
    case WriteDirect(_) => DirectKeepsSocket(s, step, s');
    case FailDirect(_, _) => DirectKeepsSocket(s, step, s');
    case Take => TakeKeepsSocket(s, s');
    case Write => WorkerKeepsSocket(s, step, s');
    case FailWrite(_) => WorkerKeepsSocket(s, step, s');
    case Ask(_, _) => SendKeepsChannel(s, step, s');
    case Enter(_) => SendKeepsChannel(s, step, s');
    case GiveUp(_) => SendKeepsChannel(s, step, s');
    case _ => ControlKeepsSocket(s, step, s');
  }

  /** Every step keeps the invariant. */
  lemma StepKeepsInv(s: State, step: Step, s': State)
    requires Inv(s) && Next(s, step) == Some(s')
    ensures Inv(s')
  {
    hide ChannelSound, PhasesSound, SocketSound, SenderSound, Next;
    StepKeepsSocket(s, step, s');
    forall sender: nat ensures SenderSound(s', sender) {
      StepKeepsSender(s, step, s', sender);
    }
  }

  lemma {:induction false} RunKeepsInv(s: State, steps: seq<Step>)
    requires Inv(s) && RunFrom(s, steps).Some?
    ensures Inv(RunFrom(s, steps).value)
    decreases |steps|
  {
    hide Inv, Next;
    if steps == [] {
    } else {
      StepKeepsInv(s, steps[0], Next(s, steps[0]).value);
      RunKeepsInv(Next(s, steps[0]).value, steps[1..]);
    }
  }

  lemma InvHolds(s: State)
    requires Reachable(s)
    ensures Inv(s)
  {
    var steps :| RunFrom(Init, steps) == Some(s);
    RunKeepsInv(Init, steps);
  }

  // ----- what it means -----

  /** In every reachable state the socket holds a prefix of the direct writes followed by the channel's
      packets in the order they entered, and all direct writes before the worker's first. The channel
      never holds more than 32 packets. */
  lemma WrittenInOrder(s: State)
    requires Reachable(s)
    ensures s.socket <= Bytes(s.direct) + Bytes(PacketsOf(s.entered))
    ensures !s.worker.NotStarted? ==> Bytes(s.direct) <= s.socket
    ensures |s.queue| <= 32
  {
    InvHolds(s);
    SocketWithin(s);
    var all, done := PacketsOf(s.entered), Written(s);
    assert done <= all;
    hide *;
    BytesPrefix(done, all);
  }

  lemma SocketWithin(s: State)
    requires Inv(s)
    ensures s.socket <= Bytes(s.direct) + Bytes(Written(s))
    ensures !s.worker.NotStarted? ==> Bytes(s.direct) <= s.socket
    ensures |s.queue| <= 32
  {
    hide Bytes, SenderSound, PacketsOf;
  }

  lemma BytesPrefix(p: seq<string>, q: seq<string>)
    requires p <= q
    ensures Bytes(p) <= Bytes(q)
  {
    BytesConcat(p, q[|p|..]);
    assert q == p + q[|p|..];
  }

  /** While the worker waits, exactly the packets still in the channel are missing from the socket. */
  lemma OnlyQueueIsMissing(s: State)
    requires Reachable(s) && s.worker.Waiting?
    ensures s.socket + Bytes(s.queue) == Bytes(s.direct) + Bytes(PacketsOf(s.entered))
  {
    InvHolds(s);
    hide Inv, Bytes, PacketsOf;
    AllTaken(s);
    var all := PacketsOf(s.entered);
    BytesConcat(all[..s.taken], s.queue);
  }

  lemma AllTaken(s: State)
    requires Inv(s) && s.worker.Waiting?
    ensures s.taken <= |s.entered| && PacketsOf(s.entered) == PacketsOf(s.entered)[..s.taken] + s.queue
    ensures s.socket == Bytes(s.direct) + Bytes(PacketsOf(s.entered)[..s.taken])
  {
    hide Bytes, PacketsOf, SenderSound;
  }

  /** Until the client's context is cancelled every sender's packets enter the channel in the order
      they were sent, none lost and none doubled; only the call in progress is still outside. After a
      cancellation each call has entered, been reported as an error, or is in progress. */
  lemma SendersKeepOrder(s: State, sender: nat)
    requires Reachable(s)
    ensures !s.cancelled ==> By(s.asked, sender) == By(s.entered, sender) + PendingOf(s, sender)
    ensures multiset(By(s.asked, sender))
         == multiset(By(s.entered, sender)) + multiset(By(s.dropped, sender)) + multiset(PendingOf(s, sender))
  {
    InvHolds(s);
    hide ChannelSound, PhasesSound, SocketSound, By;
    assert SenderSound(s, sender);
  }

  /** Whatever happens after a reachable state: once the worker runs there are no more direct writes,
      what is written stays written, and a closed connection takes nothing more. */
  lemma SocketOnlyGrows(s: State, steps: seq<Step>, t: State)
    requires Reachable(s) && RunFrom(s, steps) == Some(t)
    ensures s.socket <= t.socket
    ensures !s.worker.NotStarted? ==> t.direct == s.direct
    ensures s.closed ==> t.socket == s.socket
  {
    InvHolds(s);
    RunGrows(s, steps);
  }

  lemma {:induction false} RunGrows(s: State, steps: seq<Step>)
    requires Inv(s) && RunFrom(s, steps).Some?
    ensures var t := RunFrom(s, steps).value;
            && s.socket <= t.socket
            && (!s.worker.NotStarted? ==> t.direct == s.direct)
            && (s.closed ==> t.socket == s.socket)
    decreases |steps|
  {
    if steps == [] {
    } else {
      var s' := Next(s, steps[0]).value;
      StepKeepsInv(s, steps[0], s');
      StepGrows(s, steps[0], s');
      hide Inv, Next;
      RunGrows(s', steps[1..]);
    }
  }

  lemma StepGrows(s: State, step: Step, s': State)
    requires Inv(s) && Next(s, step) == Some(s')
    ensures s.socket <= s'.socket
    ensures !s.worker.NotStarted? ==> s'.direct == s.direct && !s'.worker.NotStarted?
    ensures s.closed ==> s'.socket == s.socket && s'.closed
  {
    hide ChannelSound, SocketSound, SenderSound;
  }

  lemma TwoSteps(s: State, s1: State, s2: State, rest: seq<Step>)
    requires Next(s, Take) == Some(s1) && Next(s1, Write) == Some(s2)
    ensures RunFrom(s, [Take, Write] + rest) == RunFrom(s2, rest)
  {
    var steps := [Take, Write] + rest;
    hide Next;
    assert steps[1..] == [Write] + rest && steps[1..][1..] == rest;
    assert RunFrom(s1, steps[1..]) == RunFrom(s2, rest);
  }

  /** The state in which the worker has written everything that was in the channel. */
  function Drained(s: State): State {
    s.(queue := [], taken := s.taken + |s.queue|, socket := s.socket + Bytes(s.queue))
  }

  lemma DrainedAfterOne(s: State, s': State)
    requires s.queue != []
    requires s' == s.(queue := s.queue[1..], taken := s.taken + 1, socket := s.socket + s.queue[0])
    ensures Drained(s') == Drained(s)
  {
    assert s.queue == [s.queue[0]] + s.queue[1..];
    BytesConcat([s.queue[0]], s.queue[1..]);
    BytesAppend([], s.queue[0]);
    assert Bytes([]) + s.queue[0] == s.queue[0] && [] + [s.queue[0]] == [s.queue[0]];
    hide Bytes;
    assert s.socket + s.queue[0] + Bytes(s.queue[1..]) == s.socket + (s.queue[0] + Bytes(s.queue[1..]));
  }

  /** Left alone, a waiting worker brings everything in the channel to an open socket, in order. */
  lemma {:induction false} WorkerDrains(s: State) returns (steps: seq<Step>)
    requires s.worker.Waiting? && !s.closed
    ensures RunFrom(s, steps) == Some(Drained(s))
    decreases |s.queue|
  {
    if s.queue == [] {
      steps := [];
      assert s.socket + Bytes(s.queue) == s.socket;
    } else {
      var packet := s.queue[0];
      var s1 := s.(worker := Holding(packet), queue := s.queue[1..], taken := s.taken + 1);
      var s2 := s1.(worker := Waiting, socket := s.socket + packet);
      var rest := WorkerDrains(s2);
      steps := [Take, Write] + rest;
      TwoSteps(s, s1, s2, rest);
      DrainedAfterOne(s, s2);
    }
  }

  lemma {:induction false} RunsJoin(s: State, first: seq<Step>, second: seq<Step>)
    requires RunFrom(s, first).Some?
    ensures RunFrom(s, first + second) == RunFrom(RunFrom(s, first).value, second)
    decreases |first|
  {
    if first == [] {
      assert first + second == second;
    } else {
      assert (first + second)[1..] == first[1..] + second;
      hide Next;
      RunsJoin(Next(s, first[0]).value, first[1..], second);
    }
  }

  lemma OneMore(s: State, step: Step, s': State, rest: seq<Step>)
    requires Next(s, step) == Some(s')
    ensures RunFrom(s, [step] + rest) == RunFrom(s', rest)
  {
    assert ([step] + rest)[1..] == rest;
  }

  /** A waiting send always gets through while the worker waits on an open socket, however full the channel:
      once the worker has drained it the packet enters, is taken and is written, after all that was queued. */
  lemma SendGetsThrough(s: State, sender: nat) returns (steps: seq<Step>)
    requires s.worker.Waiting? && !s.closed && sender in s.pending
    ensures RunFrom(s, steps).Some?
    ensures var t := RunFrom(s, steps).value;
      && t.socket == s.socket + Bytes(s.queue) + s.pending[sender] && t.queue == []
      && t.pending == s.pending - {sender} && t.entered == s.entered + [Sent(sender, s.pending[sender])]
  {
    var packet := s.pending[sender];
    var drain := WorkerDrains(s);
    var d := Drained(s);
    steps := drain + ([Enter(sender)] + ([Take] + ([Write] + [])));
    RunsJoin(s, drain, [Enter(sender)] + ([Take] + ([Write] + [])));
    var d1 := d.(pending := s.pending - {sender}, queue := [packet], entered := s.entered + [Sent(sender, packet)]);
    var d2 := d1.(queue := [], worker := Holding(packet), taken := d1.taken + 1);
    var d3 := d2.(worker := Waiting, socket := d2.socket + packet);
    assert [] + [packet] == [packet] && [packet][1..] == [];
    OneMore(d, Enter(sender), d1, [Take] + ([Write] + []));
    OneMore(d1, Take, d2, [Write] + []);
    OneMore(d2, Write, d3, []);
  }

  /** From the start a connection can be served: it writes its greeting, is welcomed, and a packet sent to it
      is then written to its socket behind the greeting. */
  lemma ServedFromTheStart(greeting: string, sender: nat, packet: string) returns (steps: seq<Step>)
    ensures RunFrom(Init, steps).Some?
    ensures var t := RunFrom(Init, steps).value;
      && t.main == Serving && !t.cancelled && !t.closed && t.socket == greeting + packet
      && t.direct == [greeting] && t.asked == t.entered == [Sent(sender, packet)] && t.dropped == [] && t.queue == []
  {
    var s1 := Init.(socket := greeting, direct := [greeting]);
    var s2 := s1.(main := Welcoming);
    var s3 := s2.(main := Serving, worker := Waiting);
    var s4 := s3.(pending := map[sender := packet], asked := [Sent(sender, packet)]);
    var before := [WriteDirect(greeting)] + ([Register] + ([Serve] + ([Ask(sender, packet)] + [])));
    assert "" + greeting == greeting && [] + [greeting] == [greeting] && [] + [Sent(sender, packet)] == [Sent(sender, packet)];
    OneMore(Init, WriteDirect(greeting), s1, [Register] + ([Serve] + ([Ask(sender, packet)] + [])));
    OneMore(s1, Register, s2, [Serve] + ([Ask(sender, packet)] + []));
    OneMore(s2, Serve, s3, [Ask(sender, packet)] + []);
    OneMore(s3, Ask(sender, packet), s4, []);
    hide Next;
    var through := SendGetsThroughAlone(s4, sender);
    steps := before + through;
    RunsJoin(Init, before, through);
  }

  /** The same with an empty channel, and what else the run leaves. */
  lemma SendGetsThroughAlone(s: State, sender: nat) returns (steps: seq<Step>)
    requires s.worker.Waiting? && !s.closed && sender in s.pending && s.queue == []
    ensures RunFrom(s, steps) == Some(s.(
      socket := s.socket + s.pending[sender], pending := s.pending - {sender},
      entered := s.entered + [Sent(sender, s.pending[sender])], taken := s.taken + 1))
  {
    var packet := s.pending[sender];
    steps := [Enter(sender)] + ([Take] + ([Write] + []));
    var s1 := s.(pending := s.pending - {sender}, queue := [packet], entered := s.entered + [Sent(sender, packet)]);
    var s2 := s1.(queue := [], worker := Holding(packet), taken := s1.taken + 1);
    var s3 := s2.(worker := Waiting, socket := s2.socket + packet);
    assert [] + [packet] == [packet] && [packet][1..] == [];
    OneMore(s, Enter(sender), s1, [Take] + ([Write] + []));
    OneMore(s1, Take, s2, [Write] + []);
    OneMore(s2, Write, s3, []);
  }

  /** A send blocks exactly while the channel holds 32 packets and the client is not cancelled; nothing but a
      cancellation makes it fail. */
  lemma SendBlocksExactly(s: State, sender: nat)
    requires sender in s.pending
    ensures Next(s, Enter(sender)).None? && Next(s, GiveUp(sender)).None? <==> |s.queue| >= 32 && !s.cancelled
    ensures Next(s, GiveUp(sender)).Some? <==> s.cancelled
  {
  }
}
