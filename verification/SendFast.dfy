/** The Send Fast flag of one client over its pilot position reports
    (openaimp-fsd/fsd/handler.go, handlePilotPosition). */
module SendFast {
  import opened Fields

  const VELOCITY_REVISION := 101
  const METERS_PER_NAUTICAL_MILE := 1852.0
  const THRESHOLD := 5.0

  /** The flag after a report, given the distance the search left behind. */
  function NextFlag(enabled: bool, protoRevision: int, closest: real): bool {
    if protoRevision != VELOCITY_REVISION then enabled
    else if enabled then !(closest / METERS_PER_NAUTICAL_MILE > THRESHOLD)
    else closest / METERS_PER_NAUTICAL_MILE < THRESHOLD
  }

  function SendFastPacket(callsign: string, enabled: bool): string {
    "$SFSERVER:" + callsign + ":" + (if enabled then "1" else "0") + CRLF
  }

  /** One valid report: the closest distance it found, and whether the client's context had been cancelled
      by the time the report's call of send returned, before the report or while the call waited. */
  datatype Report = Report(closest: real, cancelledOnReturn: bool)

  /** The flag, the $SF packets the server tried to send and those that were queued. */
  datatype Session = Session(enabled: bool, attempts: seq<bool>, queued: seq<bool>)

  /** One report. A call of send that returns while the client is live has put its packet into the channel;
      after a cancellation, also one during the call, the select may have taken either branch, as `taken`
      says, and the error is ignored. */
  function Step(s: Session, protoRevision: int, r: Report, taken: bool): Session {
    var flag := NextFlag(s.enabled, protoRevision, r.closest);
    if flag == s.enabled then s
    else Session(flag, s.attempts + [flag], if !r.cancelledOnReturn || taken then s.queued + [flag] else s.queued)
  }

  /** The session after the reports, with the select's choice at each. */
  function After(protoRevision: int, reports: seq<Report>, taken: seq<bool>): Session
    requires |taken| == |reports|
  {
    if reports == [] then Session(false, [], [])
    else
      var last := |reports| - 1;
      Step(After(protoRevision, reports[..last], taken[..last]), protoRevision, reports[last], taken[last])
  }

  /** The flag alone, which depends on the distances only. */
  function FlagAfter(protoRevision: int, reports: seq<Report>): bool {
    if reports == [] then false
    else NextFlag(FlagAfter(protoRevision, reports[..|reports| - 1]), protoRevision, reports[|reports| - 1].closest)
  }

  predicate Alternates(packets: seq<bool>) {
    forall i :: 0 <= i < |packets| ==> packets[i] == (i % 2 == 0)
  }

  /** The flag is what the last queued packet said; off before the first. */
  predicate Agrees(s: Session) {
    s.enabled == (|s.queued| > 0 && s.queued[|s.queued| - 1])
  }

  /** Over any run of reports the packets the server sends alternate 1, 0, 1, ..., and the flag is on
      exactly after an odd number of them. */
  lemma {:induction false} AttemptsAlternate(protoRevision: int, reports: seq<Report>, taken: seq<bool>)
    requires |taken| == |reports|
    ensures var s := After(protoRevision, reports, taken);
            && Alternates(s.attempts) && s.enabled == (|s.attempts| % 2 == 1)
            && s.enabled == FlagAfter(protoRevision, reports)
  {
    if reports != [] {
      var last := |reports| - 1;
      AttemptsAlternate(protoRevision, reports[..last], taken[..last]);
    }
  }

  /** After each report of a revision-101 client the flag fits the distance: on means at most five
      nautical miles, off at least five. Any other revision never turns it on. */
  lemma FlagFitsDistance(protoRevision: int, reports: seq<Report>, r: Report)
    ensures var on := FlagAfter(protoRevision, reports + [r]);
            if protoRevision == VELOCITY_REVISION then
              && (on ==> r.closest / METERS_PER_NAUTICAL_MILE <= THRESHOLD)
              && (!on ==> r.closest / METERS_PER_NAUTICAL_MILE >= THRESHOLD)
            else !on
  {
    assert (reports + [r])[..|reports|] == reports;
    if protoRevision != VELOCITY_REVISION {
      NeverOn(protoRevision, reports + [r], seq(|reports| + 1, _ => true));
      AttemptsAlternate(protoRevision, reports + [r], seq(|reports| + 1, _ => true));
    }
  }

  lemma {:induction false} NeverOn(protoRevision: int, reports: seq<Report>, taken: seq<bool>)
    requires protoRevision != VELOCITY_REVISION && |taken| == |reports|
    ensures After(protoRevision, reports, taken) == Session(false, [], [])
  {
    if reports != [] {
      NeverOn(protoRevision, reports[..|reports| - 1], taken[..|reports| - 1]);
    }
  }

  /** Report n changes the flag. */
  predicate Flips(protoRevision: int, reports: seq<Report>, n: nat)
    requires n < |reports|
  {
    FlagAfter(protoRevision, reports[..n + 1]) != FlagAfter(protoRevision, reports[..n])
  }

  lemma AfterStep(protoRevision: int, reports: seq<Report>, taken: seq<bool>, n: nat)
    requires n < |reports| == |taken|
    ensures After(protoRevision, reports[..n + 1], taken[..n + 1])
         == Step(After(protoRevision, reports[..n], taken[..n]), protoRevision, reports[n], taken[n])
  {
    assert reports[..n + 1][..n] == reports[..n] && taken[..n + 1][..n] == taken[..n];
  }

  ghost predicate AgreesThroughout(protoRevision: int, reports: seq<Report>, taken: seq<bool>)
    requires |taken| == |reports|
  {
    forall n: nat :: n <= |reports| ==> Agrees(After(protoRevision, reports[..n], taken[..n]))
  }

  /** The send of every report that changes the flag returns while the client is live. */
  ghost predicate FlipsWhileLive(protoRevision: int, reports: seq<Report>) {
    forall n: nat :: n < |reports| ==> !reports[n].cancelledOnReturn || !Flips(protoRevision, reports, n)
  }

  /** Whatever the select chooses, the flag agrees with the last queued packet throughout a run, if and only
      if the send of every report that changes the flag returns while the client is live. Then all packets
      sent are queued, so the queued packets alternate too. */
  lemma AgreesExactly(protoRevision: int, reports: seq<Report>)
    ensures FlipsWhileLive(protoRevision, reports)
       <==> forall taken: seq<bool> :: |taken| == |reports| ==> AgreesThroughout(protoRevision, reports, taken)
    ensures FlipsWhileLive(protoRevision, reports) ==>
      forall taken: seq<bool> :: |taken| == |reports| ==>
        var s := After(protoRevision, reports, taken); s.queued == s.attempts && Alternates(s.queued)
  {
    if FlipsWhileLive(protoRevision, reports) {
      forall taken: seq<bool> | |taken| == |reports|
        ensures AgreesThroughout(protoRevision, reports, taken)
        ensures var s := After(protoRevision, reports, taken); s.queued == s.attempts && Alternates(s.queued)
      {
        LiveAgrees(protoRevision, reports, taken);
      }
    } else {
      var n: nat :| n < |reports| && !(!reports[n].cancelledOnReturn || !Flips(protoRevision, reports, n));
      var taken := seq(|reports|, _ => false);
      RefusalDisagrees(protoRevision, reports, taken, n);
      hide After, Flips;
      assert !AgreesThroughout(protoRevision, reports, taken);
    }
  }

  lemma LiveAgrees(protoRevision: int, reports: seq<Report>, taken: seq<bool>)
    requires |taken| == |reports| && FlipsWhileLive(protoRevision, reports)
    ensures AgreesThroughout(protoRevision, reports, taken)
    ensures var s := After(protoRevision, reports, taken); s.queued == s.attempts && Alternates(s.queued)
  {
    hide After, FlipsWhileLive, Alternates;
    forall n: nat | n <= |reports| ensures Agrees(After(protoRevision, reports[..n], taken[..n])) {
      NoneLost(protoRevision, reports, taken, n);
      AllQueuedAgrees(protoRevision, reports[..n], taken[..n]);
    }
    NoneLost(protoRevision, reports, taken, |reports|);
    AttemptsAlternate(protoRevision, reports, taken);
    assert reports[..|reports|] == reports && taken[..|reports|] == taken;
  }

  lemma AllQueuedAgrees(protoRevision: int, reports: seq<Report>, taken: seq<bool>)
    requires |taken| == |reports|
    requires After(protoRevision, reports, taken).queued == After(protoRevision, reports, taken).attempts
    ensures Agrees(After(protoRevision, reports, taken))
  {
    AttemptsAlternate(protoRevision, reports, taken);
    hide After;
    var s := After(protoRevision, reports, taken);
    if |s.attempts| > 0 {
      assert s.attempts[|s.attempts| - 1] == ((|s.attempts| - 1) % 2 == 0);
    }
  }

  /** A flip whose packet the cancelled client's channel refuses leaves flag and packets at odds. */
  lemma RefusalDisagrees(protoRevision: int, reports: seq<Report>, taken: seq<bool>, n: nat)
    requires n < |reports| == |taken| && reports[n].cancelledOnReturn && !taken[n] && Flips(protoRevision, reports, n)
    ensures !Agrees(After(protoRevision, reports[..n], taken[..n]))
         || !Agrees(After(protoRevision, reports[..n + 1], taken[..n + 1]))
  {
    AfterStep(protoRevision, reports, taken, n);
    AttemptsAlternate(protoRevision, reports[..n], taken[..n]);
    AttemptsAlternate(protoRevision, reports[..n + 1], taken[..n + 1]);
    hide After, FlagAfter, Alternates;
  }

  lemma {:induction false} NoneLost(protoRevision: int, reports: seq<Report>, taken: seq<bool>, n: nat)
    requires n <= |reports| == |taken| && FlipsWhileLive(protoRevision, reports)
    ensures var s := After(protoRevision, reports[..n], taken[..n]); s.queued == s.attempts
  {
    if n > 0 {
      NoneLost(protoRevision, reports, taken, n - 1);
      AfterStep(protoRevision, reports, taken, n - 1);
      AttemptsAlternate(protoRevision, reports[..n - 1], taken[..n - 1]);
      AttemptsAlternate(protoRevision, reports[..n], taken[..n]);
      hide After, FlagAfter, Alternates;
      assert !reports[n - 1].cancelledOnReturn || !Flips(protoRevision, reports, n - 1);
    }
  }

  /** A client cancelled after its first report can be told to enable twice in a row: its channel refuses
      the disabling packet and takes the next one. */
  lemma LostPacketRepeats()
    ensures var reports := [Report(0.0, false), Report(18520.0, true), Report(0.0, true)];
            After(VELOCITY_REVISION, reports, [true, false, true]).queued == [true, true]
  {
    var reports, taken := [Report(0.0, false), Report(18520.0, true), Report(0.0, true)], [true, false, true];
    assert reports[..0] == [] && reports[..3] == reports && taken[..0] == [] && taken[..3] == taken;
    AfterStep(VELOCITY_REVISION, reports, taken, 0);
    AfterStep(VELOCITY_REVISION, reports, taken, 1);
    AfterStep(VELOCITY_REVISION, reports, taken, 2);
    assert After(VELOCITY_REVISION, reports[..1], taken[..1]) == Session(true, [true], [true]);
    assert After(VELOCITY_REVISION, reports[..2], taken[..2]) == Session(false, [true, false], [true]);
  }

  // ----- $SF packets among others -----

  predicate IsSendFast(packet: string) {
    "$SF" <= packet
  }

  /** The flags of the $SF packets in a queue, in order. */
  function Flags(queue: seq<string>): seq<bool> {
    if queue == [] then []
    else
      var last := queue[|queue| - 1];
      Flags(queue[..|queue| - 1]) + if IsSendFast(last) then [HasSuffix(last, "1" + CRLF)] else []
  }

  /** The $SF packets alternate 1, 0, 1, ..., and the flag is what the last one said. */
  ghost predicate InStep(queue: seq<string>, enabled: bool) {
    Alternates(Flags(queue)) && enabled == (|Flags(queue)| % 2 == 1)
  }

  lemma FlagsAppend(queue: seq<string>, packet: string)
    ensures Flags(queue + [packet]) == Flags(queue) + if IsSendFast(packet) then [HasSuffix(packet, "1" + CRLF)] else []
  {
    assert (queue + [packet])[..|queue|] == queue;
  }

  lemma SendFastIsSo(callsign: string, enabled: bool)
    ensures IsSendFast(SendFastPacket(callsign, enabled))
    ensures HasSuffix(SendFastPacket(callsign, enabled), "1" + CRLF) == enabled
  {
    var packet := SendFastPacket(callsign, enabled);
    var digit := if enabled then "1" else "0";
    assert packet == ("$SFSERVER:" + callsign + ":") + (digit + CRLF);
    assert packet[|packet| - 3..] == digit + CRLF;
    assert (digit + CRLF)[0] == digit[0] && ("1" + CRLF)[0] == '1';
  }

  lemma FlipStaysInStep(queue: seq<string>, enabled: bool, callsign: string)
    requires InStep(queue, enabled)
    ensures InStep(queue + [SendFastPacket(callsign, !enabled)], !enabled)
  {
    FlagsAppend(queue, SendFastPacket(callsign, !enabled));
    SendFastIsSo(callsign, !enabled);
    hide Flags, SendFastPacket;
  }

  lemma OtherStaysInStep(queue: seq<string>, enabled: bool, packet: string)
    requires InStep(queue, enabled) && !IsSendFast(packet)
    ensures InStep(queue + [packet], enabled)
  {
    FlagsAppend(queue, packet);
    hide Flags;
  }

  lemma StartsWith(packet: string)
    ensures IsSendFast(packet) <==> |packet| >= 3 && packet[..3] == "$SF"
  {
  }
}
