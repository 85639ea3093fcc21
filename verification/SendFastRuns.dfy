/** The Send Fast flag of one client while everything else runs: its own goroutine, which sets the flag and
    then waits in send, the sender worker, other senders and cancellations, interleaved step by step
    (openaimp-fsd/fsd/handler.go, openaimp-fsd/fsd/client.go). */
module SendFastRuns {
  import opened Results
  import opened SendFast
  import Outbound

  /** The client's goroutine among the senders of its channel. */
  const OWNER: nat := 0

  /** `attempts` are the flags of the $SF packets given to send so far. */
  datatype State = State(out: Outbound.State, enabled: bool, attempts: seq<bool>)

  datatype Step =
    | Position(closest: real)      // a pilot position report, up to the start of its send
    | Other(step: Outbound.Step)   // anything else, the end of that send included

  const Init := State(Outbound.Init, false, [])

  /** The goroutine handles a report while the client is served and no send of its own is in progress. Nobody
      else sends $SF packets. */
  function Next(callsign: string, protoRevision: int, s: State, step: Step): Option<State> {
    match step
    case Position(closest) =>
      var flag := NextFlag(s.enabled, protoRevision, closest);
      if !s.out.main.Serving? || OWNER in s.out.pending then None
      else if flag == s.enabled then Some(s)
      else
        (match Outbound.Next(s.out, Outbound.Ask(OWNER, SendFastPacket(callsign, flag)))
         case None => None
         case Some(out) => Some(State(out, flag, s.attempts + [flag])))
    case Other(other) =>
      if other.Ask? && IsSendFast(other.packet) then None
      else
        match Outbound.Next(s.out, other)
        case None => None
        case Some(out) => Some(s.(out := out))
  }

  function RunFrom(callsign: string, protoRevision: int, s: State, steps: seq<Step>): Option<State>
    decreases |steps|
  {
    if steps == [] then Some(s)
    else
      match Next(callsign, protoRevision, s, steps[0])
      case None => None
      case Some(s') => RunFrom(callsign, protoRevision, s', steps[1..])
  }

  /** The $SF packets that entered the channel, and the one still waiting to. */
  function Kept(s: State): seq<bool> {
    Flags(Outbound.PacketsOf(s.out.entered)) + Flags(Outbound.PendingOf(s.out, OWNER))
  }

  /** The $SF packets whose send ended in a context error. */
  function Lost(s: State): seq<bool> {
    Flags(Outbound.PacketsOf(s.out.dropped))
  }

  /** The flag is what the last kept packet says; off before the first. */
  predicate Agrees(s: State) {
    s.enabled == (|Kept(s)| > 0 && Kept(s)[|Kept(s)| - 1])
  }

  ghost predicate Inv(s: State) {
    && Alternates(s.attempts) && s.enabled == (|s.attempts| % 2 == 1)
    && (forall k :: k in s.out.pending && k != OWNER ==> !IsSendFast(s.out.pending[k]))
    && (Lost(s) == [] ==> s.attempts == Kept(s))
    && (Lost(s) != [] ==> s.out.cancelled)
  }

  lemma FlagsOfSent(log: seq<Outbound.Sent>, e: Outbound.Sent)
    ensures Flags(Outbound.PacketsOf(log + [e])) == Flags(Outbound.PacketsOf(log)) + Flags([e.packet])
  {
    hide Flags, IsSendFast;
    assert Outbound.PacketsOf(log + [e]) == Outbound.PacketsOf(log) + [e.packet];
    hide Outbound.PacketsOf;
    NoFlags();
    FlagsAppend(Outbound.PacketsOf(log), e.packet);
    FlagsAppend([], e.packet);
    assert [] + [e.packet] == [e.packet];
  }

  lemma FlagOfOne(packet: string)
    ensures |Flags([packet])| == if IsSendFast(packet) then 1 else 0
  {
    FlagsAppend([], packet);
    assert [] + [packet] == [packet];
  }

  lemma NoFlags()
    ensures Flags([]) == [] && Outbound.PacketsOf([]) == []
  {
  }

  lemma ReportKeepsInv(callsign: string, protoRevision: int, s: State, closest: real, s': State)
    requires Inv(s) && Next(callsign, protoRevision, s, Position(closest)) == Some(s')
    ensures Inv(s') && Lost(s') == Lost(s)
  {
    var flag := NextFlag(s.enabled, protoRevision, closest);
    if flag != s.enabled {
      SendFastIsSo(callsign, flag);
      FlagsAppend([], SendFastPacket(callsign, flag));
      assert [] + [SendFastPacket(callsign, flag)] == [SendFastPacket(callsign, flag)];
      NoFlags();
      hide Flags, SendFastPacket, IsSendFast, NextFlag, Outbound.PacketsOf;
      assert Kept(s) == Flags(Outbound.PacketsOf(s.out.entered));
    }
  }

  /** What a step that is not a report does to the packets: one enters, one is dropped, one of no interest
      is asked for, or nothing happens to them. */
  lemma OtherKeepsInv(callsign: string, protoRevision: int, s: State, step: Outbound.Step, s': State)
    requires Inv(s) && Next(callsign, protoRevision, s, Other(step)) == Some(s')
    ensures Inv(s') && Lost(s) <= Lost(s')
    ensures Lost(s') != Lost(s) ==>
      && step == Outbound.GiveUp(OWNER) && |Lost(s')| == |Lost(s)| + 1
      && Kept(s) == Kept(s') + Lost(s')[|Lost(s)|..]
  {
    NoFlags();
    match step
    case Enter(k) => EnterKeepsInv(s, k, s'.out);
    case GiveUp(k) => GiveUpKeepsInv(s, k, s'.out);
    case Ask(k, packet) => AskKeepsInv(s, k, packet, s'.out);
    case _ => hide Flags, IsSendFast, Outbound.PacketsOf;
  }

  lemma EnterKeepsInv(s: State, k: nat, out: Outbound.State)
    requires Inv(s) && Outbound.SendStep(s.out, Outbound.Enter(k)) == Some(out)
    ensures Inv(s.(out := out)) && Lost(s.(out := out)) == Lost(s)
  {
    var packet := s.out.pending[k];
    FlagsOfSent(s.out.entered, Outbound.Sent(k, packet));
    FlagOfOne(packet);
    NoFlags();
    hide Flags, IsSendFast, Outbound.PacketsOf, Alternates;
    assert Kept(s.(out := out)) == Kept(s);
  }

  lemma GiveUpKeepsInv(s: State, k: nat, out: Outbound.State)
    requires Inv(s) && Outbound.SendStep(s.out, Outbound.GiveUp(k)) == Some(out)
    ensures var s' := s.(out := out);
      && Inv(s') && Lost(s) <= Lost(s')
      && (Lost(s') != Lost(s) ==> k == OWNER && Kept(s) == Kept(s') + Lost(s')[|Lost(s)|..] && |Lost(s')| == |Lost(s)| + 1)
  {
    var packet := s.out.pending[k];
    FlagsOfSent(s.out.dropped, Outbound.Sent(k, packet));
    FlagOfOne(packet);
    NoFlags();
    hide Flags, IsSendFast, Outbound.PacketsOf, Alternates;
    var s' := s.(out := out);
    if k == OWNER {
      assert Kept(s) == Kept(s') + Flags([packet]);
    }
  }

  lemma AskKeepsInv(s: State, k: nat, packet: string, out: Outbound.State)
    requires Inv(s) && Outbound.SendStep(s.out, Outbound.Ask(k, packet)) == Some(out) && !IsSendFast(packet)
    ensures Inv(s.(out := out)) && Lost(s.(out := out)) == Lost(s)
  {
    FlagOfOne(packet);
    NoFlags();
    hide Flags, IsSendFast, Outbound.PacketsOf, Alternates;
    assert Kept(s.(out := out)) == Kept(s);
  }

  lemma StepKeepsInv(callsign: string, protoRevision: int, s: State, step: Step, s': State)
    requires Inv(s) && Next(callsign, protoRevision, s, step) == Some(s')
    ensures Inv(s') && Lost(s) <= Lost(s')
  {
    hide Inv, Next, Lost;
    match step
    case Position(closest) => ReportKeepsInv(callsign, protoRevision, s, closest, s');
    case Other(other) => OtherKeepsInv(callsign, protoRevision, s, other, s');
  }

  lemma NothingLostAgrees(s: State)
    requires Inv(s) && Lost(s) == []
    ensures Agrees(s)
  {
    hide Kept, Lost;
    if s.attempts != [] {
      assert s.attempts[|s.attempts| - 1] == ((|s.attempts| - 1) % 2 == 0);
    }
  }

  /** The first loss of a $SF packet puts flag and packets at odds. */
  lemma FirstLossDisagrees(callsign: string, protoRevision: int, s: State, step: Step, s': State)
    requires Inv(s) && Lost(s) == [] && Next(callsign, protoRevision, s, step) == Some(s') && Lost(s') != []
    ensures !Agrees(s')
  {
    if step.Position? {
      ReportKeepsInv(callsign, protoRevision, s, step.closest, s');
    } else {
      OtherKeepsInv(callsign, protoRevision, s, step.step, s');
      hide Kept, Lost;
      assert s.attempts == Kept(s') + Lost(s');
      assert |s.attempts| == |Kept(s')| + 1 && s'.enabled == s.enabled;
      if |Kept(s')| > 0 {
        var last := |Kept(s')| - 1;
        assert Kept(s')[last] == s.attempts[last] == (last % 2 == 0);
      }
    }
  }

  ghost predicate AgreesThroughout(callsign: string, protoRevision: int, s: State, steps: seq<Step>)
    requires RunFrom(callsign, protoRevision, s, steps).Some?
    decreases |steps|
  {
    Agrees(s) && (steps != [] ==> AgreesThroughout(callsign, protoRevision, Next(callsign, protoRevision, s, steps[0]).value, steps[1..]))
  }

  lemma {:induction false} RunAgrees(callsign: string, protoRevision: int, s: State, steps: seq<Step>)
    requires Inv(s) && RunFrom(callsign, protoRevision, s, steps).Some?
    ensures var t := RunFrom(callsign, protoRevision, s, steps).value;
      && Inv(t) && Lost(s) <= Lost(t)
      && (Lost(s) == [] ==> (AgreesThroughout(callsign, protoRevision, s, steps) <==> Lost(t) == []))
    decreases |steps|
  {
    if Lost(s) == [] {
      NothingLostAgrees(s);
    }
    if steps != [] {
      var s' := Next(callsign, protoRevision, s, steps[0]).value;
      StepKeepsInv(callsign, protoRevision, s, steps[0], s');
      if Lost(s) == [] && Lost(s') != [] {
        FirstLossDisagrees(callsign, protoRevision, s, steps[0], s');
      }
      hide Inv, Next, Agrees, Lost;
      RunAgrees(callsign, protoRevision, s', steps[1..]);
      AgreesFirst(callsign, protoRevision, s', steps[1..]);
    }
  }

  lemma AgreesFirst(callsign: string, protoRevision: int, s: State, steps: seq<Step>)
    requires RunFrom(callsign, protoRevision, s, steps).Some?
    ensures AgreesThroughout(callsign, protoRevision, s, steps) ==> Agrees(s)
  {
    hide Agrees, Next;
  }

  /** Over every interleaved run the flag agrees throughout with the last $SF packet that entered the channel
      or is about to, if and only if no send of a $SF packet ended in a context error; and such an error
      means that the client has been cancelled, before the report or while its send was waiting. */
  lemma AgreesExactly(callsign: string, protoRevision: int, steps: seq<Step>)
    requires RunFrom(callsign, protoRevision, Init, steps).Some?
    ensures var t := RunFrom(callsign, protoRevision, Init, steps).value;
      && (AgreesThroughout(callsign, protoRevision, Init, steps) <==> Lost(t) == [])
      && (Lost(t) != [] ==> t.out.cancelled)
  {
    InitIsSound();
    hide AgreesThroughout, Lost;
    RunAgrees(callsign, protoRevision, Init, steps);
  }

  /** The states in which the next step can put flag and packets at odds for the first time are exactly those
      in which the client is cancelled and a $SF packet of its own is still waiting to enter the channel. */
  lemma CanDisagreeExactly(callsign: string, protoRevision: int, steps: seq<Step>, s: State)
    requires RunFrom(callsign, protoRevision, Init, steps) == Some(s) && Lost(s) == []
    ensures (exists step, s' :: Next(callsign, protoRevision, s, step) == Some(s') && !Agrees(s'))
       <==> s.out.cancelled && OWNER in s.out.pending && IsSendFast(s.out.pending[OWNER])
  {
    InitIsSound();
    RunAgrees(callsign, protoRevision, Init, steps);
    if s.out.cancelled && OWNER in s.out.pending && IsSendFast(s.out.pending[OWNER]) {
      GiveUpDisagrees(callsign, protoRevision, s);
    }
    forall step, s' | Next(callsign, protoRevision, s, step) == Some(s') && !Agrees(s')
      ensures s.out.cancelled && OWNER in s.out.pending && IsSendFast(s.out.pending[OWNER])
    {
      DisagreementIsGiveUp(callsign, protoRevision, s, step, s');
    }
  }

  lemma GiveUpDisagrees(callsign: string, protoRevision: int, s: State)
    requires Inv(s) && Lost(s) == [] && s.out.cancelled && OWNER in s.out.pending && IsSendFast(s.out.pending[OWNER])
    ensures exists step, s' :: Next(callsign, protoRevision, s, step) == Some(s') && !Agrees(s')
  {
    var packet := s.out.pending[OWNER];
    var step := Other(Outbound.GiveUp(OWNER));
    var s' := Next(callsign, protoRevision, s, step).value;
    FlagsOfSent(s.out.dropped, Outbound.Sent(OWNER, packet));
    FlagOfOne(packet);
    assert Lost(s') != [] by {
      hide Flags, IsSendFast, Outbound.PacketsOf;
    }
    hide Lost, Agrees, Flags;
    FirstLossDisagrees(callsign, protoRevision, s, step, s');
  }

  lemma DisagreementIsGiveUp(callsign: string, protoRevision: int, s: State, step: Step, s': State)
    requires Inv(s) && Lost(s) == [] && Next(callsign, protoRevision, s, step) == Some(s') && !Agrees(s')
    ensures s.out.cancelled && OWNER in s.out.pending && IsSendFast(s.out.pending[OWNER])
  {
    StepKeepsInv(callsign, protoRevision, s, step, s');
    assert Lost(s') != [] by {
      if Lost(s') == [] {
        NothingLostAgrees(s');
      }
    }
    if step.Position? {
      ReportKeepsInv(callsign, protoRevision, s, step.closest, s');
    } else {
      OtherKeepsInv(callsign, protoRevision, s, step.step, s');
      var packet := s.out.pending[OWNER];
      FlagsOfSent(s.out.dropped, Outbound.Sent(OWNER, packet));
      FlagOfOne(packet);
      hide Flags, IsSendFast, Outbound.PacketsOf;
    }
  }

  lemma InitIsSound()
    ensures Inv(Init) && Lost(Init) == []
  {
    NoFlags();
  }

  /** As long as the client is live, whatever the interleaving, the $SF packets in the channel's history
      alternate 1, 0, 1, ..., and the flag is on exactly after an odd number of them, the waiting one
      counted. */
  lemma LivePacketsAlternate(callsign: string, protoRevision: int, steps: seq<Step>)
    requires RunFrom(callsign, protoRevision, Init, steps).Some?
    ensures var t := RunFrom(callsign, protoRevision, Init, steps).value;
      !t.out.cancelled ==> Alternates(Kept(t)) && t.enabled == (|Kept(t)| % 2 == 1) && Kept(t) == t.attempts
  {
    InitIsSound();
    RunAgrees(callsign, protoRevision, Init, steps);
    hide RunFrom, Kept, Lost;
  }

  lemma FirstStep(callsign: string, protoRevision: int, s: State, step: Step, s': State, rest: seq<Step>)
    requires Next(callsign, protoRevision, s, step) == Some(s')
    ensures RunFrom(callsign, protoRevision, s, [step] + rest) == RunFrom(callsign, protoRevision, s', rest)
  {
    assert ([step] + rest)[1..] == rest;
  }

  /** Served, at a distance of zero, with the enabling packet on its way. */
  function Enabling(callsign: string): State {
    var packet := SendFastPacket(callsign, true);
    State(Outbound.Init.(main := Outbound.Serving, worker := Outbound.Waiting, pending := map[OWNER := packet],
                         asked := [Outbound.Sent(OWNER, packet)]), true, [true])
  }

  /** The report comes while the client is live; cancelled before its send is through, the client is left
      with the flag on and no packet that says so. */
  lemma CancelledDuringSend(callsign: string)
    ensures var reported := [Other(Outbound.Register), Other(Outbound.Serve), Position(0.0)];
      && RunFrom(callsign, VELOCITY_REVISION, Init, reported) == Some(Enabling(callsign))
      && !Enabling(callsign).out.cancelled
    ensures var t := RunFrom(callsign, VELOCITY_REVISION, Enabling(callsign), [Other(Outbound.Cancel), Other(Outbound.GiveUp(OWNER))]);
      t.Some? && t.value.enabled && t.value.out.entered == [] && t.value.out.pending == map[] && !Agrees(t.value)
  {
    var s0, s3 := Init, Enabling(callsign);
    var s1 := s0.(out := s0.out.(main := Outbound.Welcoming));
    var s2 := s0.(out := s0.out.(main := Outbound.Serving, worker := Outbound.Waiting));
    assert NextFlag(false, VELOCITY_REVISION, 0.0);
    assert s2.out.asked + s3.out.asked == s3.out.asked && s2.attempts + [true] == s3.attempts;
    assert s2.out.pending[OWNER := SendFastPacket(callsign, true)] == s3.out.pending;
    FirstStep(callsign, VELOCITY_REVISION, s2, Position(0.0), s3, []);
    FirstStep(callsign, VELOCITY_REVISION, s1, Other(Outbound.Serve), s2, [Position(0.0)]);
    FirstStep(callsign, VELOCITY_REVISION, s0, Other(Outbound.Register), s1, [Other(Outbound.Serve), Position(0.0)]);
    assert [Other(Outbound.Register)] + ([Other(Outbound.Serve)] + ([Position(0.0)] + []))
        == [Other(Outbound.Register), Other(Outbound.Serve), Position(0.0)];
    LostAfterCancel(callsign);
  }

  lemma LostAfterCancel(callsign: string)
    ensures var t := RunFrom(callsign, VELOCITY_REVISION, Enabling(callsign), [Other(Outbound.Cancel), Other(Outbound.GiveUp(OWNER))]);
      t.Some? && t.value.enabled && t.value.out.entered == [] && t.value.out.pending == map[] && !Agrees(t.value)
  {
    var s3 := Enabling(callsign);
    var s4 := s3.(out := s3.out.(cancelled := true));
    var s5 := s4.(out := s4.out.(pending := map[], dropped := s4.out.asked));
    assert s4.out.pending - {OWNER} == map[];
    assert s4.out.dropped + [Outbound.Sent(OWNER, SendFastPacket(callsign, true))] == s4.out.asked;
    FirstStep(callsign, VELOCITY_REVISION, s4, Other(Outbound.GiveUp(OWNER)), s5, []);
    FirstStep(callsign, VELOCITY_REVISION, s3, Other(Outbound.Cancel), s4, [Other(Outbound.GiveUp(OWNER))]);
    assert [Other(Outbound.Cancel)] + ([Other(Outbound.GiveUp(OWNER))] + [])
        == [Other(Outbound.Cancel), Other(Outbound.GiveUp(OWNER))];
    NoFlags();
  }
}
