/** The BBR congestion controller (bbr.c), with its arithmetic in double precision taken over the reals. */
module Bbr {
  import opened BandwidthFilter
  import opened CcCommon

  const CWIN_INITIAL := 13500
  const CWIN_MINIMUM := 2700
  const TARGET_RENO_RTT := 100000
  const UNKNOWN_RTT := 0xFFFF_FFFF_FFFF_FFFF
  const UINT64 := 0x1_0000_0000_0000_0000
  const HIGH_GAIN: real := 2.8853900817779
  const CYCLE_LEN := 8
  const CYCLE_MAX_START := 5
  const PROBE_RTT_INTERVAL := 10000000
  const PROBE_RTT_DURATION := 200000

  /** Round trip times whose quotient by the target fits the 32-bit integer it is converted to. */
  const RTT_LIMIT := 0x8000_0000 * 100000

  datatype Phase = Startup | Drain | ProbeBw | ProbeRtt | StartupLongRtt

  /** What the path reports with a bandwidth measurement. */
  datatype Sample = Sample(sendMtu: nat, rtt: nat, bandwidth: nat, delivered: nat, deliveredLastPacket: nat,
                           ackNumber: nat, bytesInTransit: nat, pathLimited: bool)

  datatype Notification =
    | Acknowledgement(bytes: nat)
    | Loss(timeout: bool, lost: nat, smoothedRtt: nat)
    | SpuriousRepeat
    | RttMeasurement
    | BwMeasurement(sample: Sample)
    | CwinBlocked(sequence: nat)

  function CycleGain(i: nat): real
    requires i < CYCLE_LEN
  {
    if i == 6 then 1.25 else if i == 7 then 0.75 else 1.0
  }

  /** Conversion of a non-negative double to an unsigned integer. */
  function Truncated(x: real): nat {
    if x <= 0.0 then 0 else x.Floor
  }

  /** Conversion to a 32-bit signed integer. */
  function Signed(n: nat): int {
    var m := n % 0x1_0000_0000;
    if m < 0x8000_0000 then m else m - 0x1_0000_0000
  }

  function MinPipe(mtu: nat): nat {
    4 * mtu
  }

  /** Where the cycle of gains goes after a place: on, or from its end back to a place that grows with the round
    * trip time. */
  function Advanced(i: nat, rtProp: nat): nat {
    if i + 1 < CYCLE_LEN then i + 1
    else if rtProp / TARGET_RENO_RTT > CYCLE_MAX_START then CYCLE_MAX_START
    else rtProp / TARGET_RENO_RTT
  }

  /** The gains of each phase. */
  predicate Gains(phase: Phase, pacing: real, cwnd: real, place: int) {
    match phase
    case Startup => pacing == HIGH_GAIN && cwnd == HIGH_GAIN
    case Drain => pacing == 1.0 / HIGH_GAIN && cwnd == HIGH_GAIN
    case ProbeBw => cwnd == 1.5 && 0 <= place < CYCLE_LEN && pacing == CycleGain(place)
    case ProbeRtt => pacing == 1.0 && cwnd == 1.0
    case StartupLongRtt => false
  }

  /** The phases one measurement may lead to. */
  predicate Edge(from: Phase, to: Phase) {
    match from
    case Startup => to != StartupLongRtt
    case Drain => to == Drain || to == ProbeBw || to == ProbeRtt
    case ProbeBw => to == ProbeBw || to == ProbeRtt
    case ProbeRtt => to == ProbeRtt || to == ProbeBw || to == Startup
    case StartupLongRtt => false
  }

  /** A full pipe ends startup, and a queue that is gone ends draining. */
  function Drained(phase: Phase, filled: bool, gone: bool): Phase {
    if phase != Drain && !(phase == Startup && filled) then phase else if gone then ProbeBw else Drain
  }

  /** An old estimate of the round trip time starts its probing, and enough of that ends it. */
  function Probed(phase: Phase, filled: bool, expired: bool, idle: bool, over: bool): Phase {
    if phase != ProbeRtt then (if expired && !idle then ProbeRtt else phase)
    else if !over then ProbeRtt else if filled then ProbeBw else Startup
  }

  /** The bytes in flight that a bandwidth, a round trip time and a quantum ask for at a gain. */
  function Pipe(gain: real, btlBw: nat, rtProp: nat, quantum: nat): (r: nat)
    requires gain >= 0.0
    ensures rtProp == UNKNOWN_RTT ==> r == CWIN_INITIAL
    ensures rtProp != UNKNOWN_RTT ==> r >= 3 * quantum && (btlBw == 0 ==> r == 3 * quantum)
  {
    if rtProp == UNKNOWN_RTT then CWIN_INITIAL
    else Truncated(gain * (btlBw as real * rtProp as real / 1000000.0)) + 3 * quantum
  }

  /** The pacing rate, which does not fall before the pipe is full. */
  function Paced(gain: real, btlBw: nat, filled: bool, rate: real): real {
    if filled || gain * btlBw as real > rate then gain * btlBw as real else rate
  }

  /** The least bytes that the pacing rate lets out at once. */
  function Quantum(rate: real, mtu: nat): (q: nat)
    ensures q >= mtu || q >= 3000
    ensures q <= 64000 || q <= 2 * mtu
  {
    if rate < 150000.0 then mtu
    else if rate < 3000000.0 then 2 * mtu
    else
      var q := Truncated(rate * 0.001);
      if q > 64000 then 64000 else q
  }

  /** The window after a measurement without losses. */
  function NewWindow(cwin: nat, target: nat, filled: bool, probing: bool, acked: nat, delivered: nat, mtu: nat): nat {
    var grown :=
      if filled then
        (if cwin + acked > target then target else cwin + acked)
      else if cwin < target || delivered < CWIN_INITIAL then
        (if cwin + acked < MinPipe(mtu) then MinPipe(mtu) else cwin + acked)
      else cwin;
    if probing && grown > MinPipe(mtu) then MinPipe(mtu) else grown
  }

  /** What is known of a window and its target when a measurement comes. */
  predicate Possible(cwin: nat, target: nat, rate: real, mtu: nat) {
    cwin >= CWIN_MINIMUM && (target == CWIN_INITIAL || target >= 3 * Quantum(rate, mtu))
  }

  /** The window keeps above its minimum whatever the measurements, exactly when packets have at least 900 bytes. */
  lemma WindowFloor(mtu: nat)
    ensures mtu >= 900 <==>
            forall cwin: nat, target: nat, filled, probing, acked: nat, delivered: nat, rate: real ::
              Possible(cwin, target, rate, mtu) ==>
                NewWindow(cwin, target, filled, probing, acked, delivered, mtu) >= CWIN_MINIMUM
  {
    if mtu < 900 {
      assert Possible(CWIN_MINIMUM, 3 * mtu, 0.0, mtu);
      assert NewWindow(CWIN_MINIMUM, 3 * mtu, true, false, 0, 0, mtu) == 3 * mtu;
    }
  }

  /** The window after congestion. */
  function Halved(cwin: nat, isTimeout: bool): nat {
    if isTimeout || cwin / 2 < CWIN_MINIMUM then CWIN_MINIMUM else cwin / 2
  }

  /** What the window does not fall below after a measurement with packets of this size. */
  function Lowered(floor: nat, mtu: nat): nat {
    if 3 * mtu < floor then 3 * mtu else floor
  }

  lemma FloorKept(floor: nat, cwin: nat, target: nat, filled: bool, probing: bool, acked: nat, delivered: nat,
                  rate: real, mtu: nat)
    requires floor <= cwin && floor <= CWIN_MINIMUM && (target == CWIN_INITIAL || target >= 3 * Quantum(rate, mtu))
    ensures NewWindow(cwin, target, filled, probing, acked, delivered, mtu) >= Lowered(floor, mtu)
  {
  }

  /** The window after losses that the controller has not been told of otherwise. */
  function Recovered(cwin: nat, packetsLost: nat, mtu: nat): nat {
    if packetsLost == 0 then cwin else if cwin > packetsLost then cwin - packetsLost else mtu
  }

  /** The bytes acknowledged since the last measurement. */
  function Pending(bytes: nat, n: Notification): nat {
    match n
    case Acknowledgement(more) => bytes + more
    case BwMeasurement(_) => 0
    case _ => bytes
  }

  function Suffered(t: LossTrack, n: Notification): LossTrack {
    if n.Loss? then Reported(t, n.lost) else t
  }

  class Bbr {
    const bw: BandwidthFilter
    var cwin: nat
    var phase: Phase
    var fullBw: nat
    var fullBwCount: nat
    var rtProp: nat
    var rtPropStamp: nat
    var cycleStamp: nat
    var probeRttDoneStamp: nat
    var priorCwnd: nat
    var priorInFlight: nat
    var bytesDelivered: nat
    var sendQuantum: nat
    var targetCwnd: nat
    var pacingGain: real
    var cwndGain: real
    var pacingRate: real
    var cycleIndex: int
    var lossIntervalStart: nat
    var filledPipe: bool
    var rtPropExpired: bool
    var probeRttRoundDone: bool
    var idleRestart: bool
    var packetConservation: bool
    var lastLossWasTimeout: bool
    var cycleOnLoss: bool
    var losses: LossTrack
    ghost var floor: nat // the least of 2700 bytes and of three packets of any size measured so far

    /** What holds even between the steps of one notification. */
    ghost predicate Steady()
      reads this
    {
      && Gains(phase, pacingGain, cwndGain, cycleIndex)
      && (phase == Drain || phase == ProbeBw ==> filledPipe)
      && (!filledPipe ==> fullBwCount < 3)
      && (rtProp == UNKNOWN_RTT || rtProp < RTT_LIMIT)
      && !packetConservation
      && floor <= cwin && floor <= CWIN_MINIMUM
    }

    ghost predicate Valid()
      reads this, bw, bw.filter
    {
      && bw.Valid()
      && Steady()
      && (phase == Startup ==> !filledPipe)
      && (phase == ProbeBw ==> rtProp < RTT_LIMIT)
    }

    /** The bytes in flight that the model asks for at a gain. */
    function Inflight(gain: real): (r: nat)
      requires gain >= 0.0
      reads this, bw
      ensures rtProp == UNKNOWN_RTT ==> r == CWIN_INITIAL
      ensures rtProp != UNKNOWN_RTT ==> r >= 3 * sendQuantum && (bw.btlBw == 0 ==> r == 3 * sendQuantum)
    {
      Pipe(gain, bw.btlBw, rtProp, sendQuantum)
    }

    // ----- What a measurement with a bandwidth estimate will lead to -----

    ghost predicate Fills(btlBw: nat, roundStart: bool, pathLimited: bool)
      reads this
    {
      filledPipe || (roundStart && !pathLimited && btlBw as real < fullBw as real * 1.25 && fullBwCount == 2)
    }

    ghost predicate Over(roundStart: bool, now: nat)
      reads this
    {
      probeRttDoneStamp != 0 && (probeRttRoundDone || roundStart) && now > probeRttDoneStamp
    }

    /** The guard of the next place in the gain cycle. */
    predicate CycleEnds(btlBw: nat, packetsLost: nat, now: nat)
      requires pacingGain >= 0.0
      reads this
    {
      var long := cycleOnLoss || (now - cycleStamp) % UINT64 > rtProp;
      if pacingGain > 1.0 then
        long && (packetsLost > 0 || priorInFlight >= Pipe(pacingGain, btlBw, rtProp, sendQuantum))
      else if pacingGain < 1.0 then long || priorInFlight <= Pipe(1.0, btlBw, rtProp, sendQuantum)
      else long
    }

    ghost function PhaseAfter(btlBw: nat, roundStart: bool, s: Sample, now: nat): Phase
      reads this
    {
      var filled := Fills(btlBw, roundStart, s.pathLimited);
      var gone := s.bytesInTransit <= Pipe(1.0, btlBw, rtProp, sendQuantum);
      var expired := now > rtPropStamp + PROBE_RTT_INTERVAL;
      Probed(Drained(phase, filled, gone), filled, expired, idleRestart, Over(roundStart, now))
    }

    /** The place in the gain cycle, if the phase is bandwidth probing afterwards. */
    ghost function PlaceAfter(btlBw: nat, packetsLost: nat, now: nat): int
      requires pacingGain >= 0.0 && (phase == ProbeBw ==> cycleIndex >= 0)
      reads this
    {
      if phase != ProbeBw then 5
      else if CycleEnds(btlBw, packetsLost, now) then Advanced(cycleIndex, rtProp) else cycleIndex
    }

    /** The end of round trip probing brings the earlier window back. */
    ghost function WindowAfter(roundStart: bool, now: nat): nat
      reads this
    {
      if phase == ProbeRtt && Over(roundStart, now) && cwin < priorCwnd then priorCwnd else cwin
    }

    ghost function RtPropAfter(rtt: nat, now: nat): nat
      reads this
    {
      if rtt <= rtProp || now > rtPropStamp + PROBE_RTT_INTERVAL then rtt else rtProp
    }

    constructor (sendMtu: nat, now: nat)
      ensures Valid() && phase == Startup && cwin == CWIN_INITIAL && fresh(bw) && fresh(bw.filter)
      ensures bw.rounds == [[]] && bw.lastSequenceBlocked == 0 && floor == CWIN_MINIMUM
      ensures losses == LossTrack(0.0, 0) && !lastLossWasTimeout && bytesDelivered == 0 && rtProp == UNKNOWN_RTT
    {
      bw := new BandwidthFilter();
      cwin, phase := CWIN_INITIAL, Startup;
      fullBw, fullBwCount, rtProp, rtPropStamp, cycleStamp := 0, 0, UNKNOWN_RTT, now, now;
      probeRttDoneStamp, priorCwnd, priorInFlight, bytesDelivered, lossIntervalStart := 0, 0, 0, 0, 0;
      pacingGain, cwndGain, pacingRate, cycleIndex := HIGH_GAIN, HIGH_GAIN, 0.0, 0;
      sendQuantum := Quantum(0.0, sendMtu);
      filledPipe, rtPropExpired, probeRttRoundDone, idleRestart := false, false, false, false;
      packetConservation, lastLossWasTimeout, cycleOnLoss := false, false, false;
      losses, floor := LossTrack(0.0, 0), CWIN_MINIMUM;
      new;
      targetCwnd := Inflight(cwndGain);
    }

    // ----- Phases -----

    method AdvanceCyclePhase(now: nat)
      requires 0 <= cycleIndex < CYCLE_LEN
      requires cycleIndex == CYCLE_LEN - 1 ==> rtProp < RTT_LIMIT
      modifies this`cycleOnLoss, this`cycleStamp, this`cycleIndex, this`pacingGain
      ensures !cycleOnLoss && cycleStamp == now
      ensures cycleIndex == Advanced(old(cycleIndex), rtProp) && 0 <= cycleIndex < CYCLE_LEN
      ensures pacingGain == CycleGain(cycleIndex)
    {
      cycleOnLoss := false;
      cycleStamp := now;
      cycleIndex := cycleIndex + 1;
      if cycleIndex >= CYCLE_LEN {
        var start := Signed(rtProp / TARGET_RENO_RTT);
        if start > CYCLE_MAX_START {
          start := CYCLE_MAX_START;
        }
        cycleIndex := start;
      }
      pacingGain := CycleGain(cycleIndex);
    }

    predicate IsNextCyclePhase(packetsLost: nat, now: nat)
      requires pacingGain >= 0.0
      reads this, bw
    {
      CycleEnds(bw.btlBw, packetsLost, now)
    }

    method CheckCyclePhase(packetsLost: nat, now: nat)
      requires Steady() && (phase == ProbeBw ==> rtProp < RTT_LIMIT)
      modifies this`cycleOnLoss, this`cycleStamp, this`cycleIndex, this`pacingGain
      ensures Steady()
      ensures cycleIndex == if old(phase == ProbeBw && IsNextCyclePhase(packetsLost, now))
                            then Advanced(old(cycleIndex), rtProp) else old(cycleIndex)
    {
      if phase == ProbeBw && IsNextCyclePhase(packetsLost, now) {
        AdvanceCyclePhase(now);
      }
    }

    /** The pipe counts as full after three rounds without a quarter of growth. */
    method CheckFullPipe(pathLimited: bool)
      requires Steady()
      modifies this`fullBw, this`fullBwCount, this`filledPipe
      ensures Steady()
      ensures var checked := !old(filledPipe) && bw.roundStart && !pathLimited;
              var growing := bw.btlBw as real >= old(fullBw) as real * 1.25;
              && fullBw == (if checked && growing then bw.btlBw else old(fullBw))
              && (checked ==> fullBwCount == if growing then 0 else old(fullBwCount) + 1)
              && (filledPipe <==> old(filledPipe) || (checked && !growing && old(fullBwCount) == 2))
    {
      if !filledPipe && bw.roundStart && !pathLimited {
        if bw.btlBw as real >= fullBw as real * 1.25 {
          fullBw := bw.btlBw;
          fullBwCount := 0;
        } else {
          fullBwCount := fullBwCount + 1;
          if fullBwCount >= 3 {
            filledPipe := true;
          }
        }
      }
    }

    method EnterProbeBw(now: nat)
      requires filledPipe
      modifies this`phase, this`pacingGain, this`cwndGain, this`cycleIndex, this`cycleOnLoss, this`cycleStamp
      ensures phase == ProbeBw && cycleIndex == 5 && Gains(phase, pacingGain, cwndGain, cycleIndex)
    {
      phase, pacingGain, cwndGain, cycleIndex := ProbeBw, 1.0, 1.5, 4;
      AdvanceCyclePhase(now);
    }

    method EnterDrain()
      modifies this`phase, this`pacingGain, this`cwndGain
      ensures phase == Drain && Gains(phase, pacingGain, cwndGain, cycleIndex)
    {
      phase, pacingGain, cwndGain := Drain, 1.0 / HIGH_GAIN, HIGH_GAIN;
    }

    /** A full pipe ends startup; a drained queue starts probing. */
    method CheckDrain(bytesInTransit: nat, now: nat)
      requires Steady()
      modifies this`phase, this`pacingGain, this`cwndGain, this`cycleIndex, this`cycleOnLoss, this`cycleStamp
      ensures Steady() && (phase == Startup ==> !filledPipe)
      ensures var draining := old(phase) == Drain || (old(phase) == Startup && filledPipe);
              phase == if !draining then old(phase) else if bytesInTransit <= Inflight(1.0) then ProbeBw else Drain
      ensures phase == old(phase) != Startup && phase != Drain ==> cycleIndex == old(cycleIndex)
      ensures phase == ProbeBw != old(phase) ==> cycleIndex == 5
    {
      if phase == Startup && filledPipe {
        EnterDrain();
      }
      if phase == Drain && bytesInTransit <= Inflight(1.0) {
        EnterProbeBw(now);
      }
    }

    method UpdateRtProp(rtt: nat, now: nat)
      requires rtProp == UNKNOWN_RTT || rtProp < RTT_LIMIT
      requires rtt < RTT_LIMIT
      modifies this`rtProp, this`rtPropStamp, this`rtPropExpired
      ensures rtPropExpired == (now > old(rtPropStamp) + PROBE_RTT_INTERVAL)
      ensures rtProp < RTT_LIMIT && rtProp == if rtt <= old(rtProp) || rtPropExpired then rtt else old(rtProp)
      ensures rtPropStamp == if rtt <= old(rtProp) || rtPropExpired then now else old(rtPropStamp)
    {
      rtPropExpired := now > rtPropStamp + PROBE_RTT_INTERVAL;
      if rtt <= rtProp || rtPropExpired {
        rtProp := rtt;
        rtPropStamp := now;
      }
    }

    function SavedCwnd(): nat
      reads this
    {
      if (packetConservation || phase == ProbeBw) && cwin < priorCwnd then priorCwnd else cwin
    }

    method ExitProbeRtt(now: nat)
      requires Steady() && phase == ProbeRtt
      modifies this`phase, this`pacingGain, this`cwndGain, this`cycleIndex, this`cycleOnLoss, this`cycleStamp
      ensures Steady() && phase == (if filledPipe then ProbeBw else Startup) && (phase == ProbeBw ==> cycleIndex == 5)
    {
      if filledPipe {
        EnterProbeBw(now);
      } else {
        phase, pacingGain, cwndGain := Startup, HIGH_GAIN, HIGH_GAIN;
      }
    }

    method HandleProbeRtt(s: Sample, now: nat)
      requires Steady() && phase == ProbeRtt
      modifies this`phase, this`pacingGain, this`cwndGain, this`cycleIndex, this`cycleOnLoss, this`cycleStamp
      modifies this`probeRttDoneStamp, this`probeRttRoundDone, this`rtPropStamp, this`cwin, bw`nextRoundDelivered
      ensures Steady()
      ensures phase != ProbeRtt <==> old(Over(bw.roundStart, now))
      ensures phase == ProbeBw ==> cycleIndex == 5
      ensures phase != ProbeRtt ==>
              && phase == (if filledPipe then ProbeBw else Startup)
              && cwin == if old(cwin) < priorCwnd then priorCwnd else old(cwin)
      ensures phase == ProbeRtt ==> cwin == old(cwin)
      ensures old(probeRttDoneStamp) == 0 ==>
              probeRttDoneStamp == if s.bytesInTransit <= MinPipe(s.sendMtu) then now + PROBE_RTT_DURATION else 0
    {
      if probeRttDoneStamp == 0 && s.bytesInTransit <= MinPipe(s.sendMtu) {
        probeRttDoneStamp := now + PROBE_RTT_DURATION;
        probeRttRoundDone := false;
        bw.nextRoundDelivered := s.delivered;
      } else if probeRttDoneStamp != 0 {
        if bw.roundStart {
          probeRttRoundDone := true;
        }
        if probeRttRoundDone && now > probeRttDoneStamp {
          rtPropStamp := now;
          if cwin < priorCwnd {
            cwin := priorCwnd;
          }
          ExitProbeRtt(now);
        }
      }
    }

    method CheckProbeRtt(s: Sample, now: nat)
      requires Steady() && (phase == Startup ==> !filledPipe)
      modifies this`phase, this`pacingGain, this`cwndGain, this`cycleIndex, this`cycleOnLoss, this`cycleStamp
      modifies this`probeRttDoneStamp, this`probeRttRoundDone, this`rtPropStamp, this`cwin, this`priorCwnd
      modifies this`idleRestart, bw`nextRoundDelivered
      ensures Steady() && (phase == Startup ==> !filledPipe) && cwin == old(WindowAfter(bw.roundStart, now))
      ensures phase == Probed(old(phase), filledPipe, rtPropExpired, old(idleRestart), old(Over(bw.roundStart, now)))
      ensures phase == ProbeBw ==> cycleIndex == if old(phase) == ProbeBw then old(cycleIndex) else 5
    {
      if phase != ProbeRtt && rtPropExpired && !idleRestart {
        phase, pacingGain, cwndGain := ProbeRtt, 1.0, 1.0;
        priorCwnd := SavedCwnd();
        probeRttDoneStamp := 0;
      }
      if phase == ProbeRtt {
        HandleProbeRtt(s, now);
        idleRestart := false;
      }
    }

    method CheckPhases(s: Sample, packetsLost: nat, now: nat)
      requires Steady() && (phase == ProbeBw ==> rtProp < RTT_LIMIT)
      modifies this`phase, this`pacingGain, this`cwndGain, this`cycleIndex, this`cycleOnLoss, this`cycleStamp
      modifies this`fullBw, this`fullBwCount, this`filledPipe
      ensures Steady() && (phase == Startup ==> !filledPipe)
      ensures filledPipe == old(Fills(bw.btlBw, bw.roundStart, s.pathLimited))
      ensures phase == Drained(old(phase), filledPipe, s.bytesInTransit <= Pipe(1.0, bw.btlBw, rtProp, sendQuantum))
      ensures phase == ProbeBw ==> cycleIndex == old(PlaceAfter(bw.btlBw, packetsLost, now))
    {
      hide Pipe;
      CheckCyclePhase(packetsLost, now);
      CheckFullPipe(s.pathLimited);
      CheckDrain(s.bytesInTransit, now);
    }

    method CheckRtt(s: Sample, now: nat)
      requires Steady() && (phase == Startup ==> !filledPipe) && s.rtt < RTT_LIMIT
      modifies this`rtProp, this`rtPropStamp, this`rtPropExpired
      modifies this`phase, this`pacingGain, this`cwndGain, this`cycleIndex, this`cycleOnLoss, this`cycleStamp
      modifies this`probeRttDoneStamp, this`probeRttRoundDone, this`cwin, this`priorCwnd
      modifies this`idleRestart, bw`nextRoundDelivered
      ensures Steady() && (phase == Startup ==> !filledPipe) && cwin == old(WindowAfter(bw.roundStart, now))
      ensures rtProp < RTT_LIMIT && rtProp == old(RtPropAfter(s.rtt, now))
      ensures phase == Probed(old(phase), filledPipe, now > old(rtPropStamp) + PROBE_RTT_INTERVAL, old(idleRestart),
                              old(Over(bw.roundStart, now)))
      ensures phase == ProbeBw ==> cycleIndex == if old(phase) == ProbeBw then old(cycleIndex) else 5
    {
      UpdateRtProp(s.rtt, now);
      CheckProbeRtt(s, now);
    }

    /** The state after a measurement, given the estimate of the bandwidth. */
    method UpdateState(s: Sample, packetsLost: nat, now: nat)
      requires Steady() && (phase == ProbeBw ==> rtProp < RTT_LIMIT) && s.rtt < RTT_LIMIT
      modifies this`fullBw, this`fullBwCount, this`filledPipe, this`rtProp, this`rtPropStamp, this`rtPropExpired
      modifies this`phase, this`pacingGain, this`cwndGain, this`cycleIndex, this`cycleOnLoss, this`cycleStamp
      modifies this`probeRttDoneStamp, this`probeRttRoundDone, this`cwin, this`priorCwnd
      modifies this`idleRestart, bw`nextRoundDelivered
      ensures Steady() && (phase == Startup ==> !filledPipe)
      ensures filledPipe == old(Fills(bw.btlBw, bw.roundStart, s.pathLimited))
      ensures phase == old(PhaseAfter(bw.btlBw, bw.roundStart, s, now))
      ensures phase == ProbeBw ==> cycleIndex == old(PlaceAfter(bw.btlBw, packetsLost, now))
      ensures rtProp < RTT_LIMIT && rtProp == old(RtPropAfter(s.rtt, now))
      ensures cwin == old(WindowAfter(bw.roundStart, now))
    {
      hide Pipe;
      CheckPhases(s, packetsLost, now);
      CheckRtt(s, now);
    }

    /** A measurement updates the bandwidth estimate, and from it the state. */
    method UpdateModelAndState(s: Sample, packetsLost: nat, now: nat)
      requires Valid() && s.rtt < RTT_LIMIT
      modifies this, bw, bw.filter
      ensures Valid() && bytesDelivered == old(bytesDelivered) && losses == old(losses) && floor == old(floor)
      ensures sendQuantum == old(sendQuantum) && pacingRate == old(pacingRate)
      ensures Sampled(s)
      ensures var b, start := bw.btlBw, bw.roundStart;
              && filledPipe == old(Fills(b, start, s.pathLimited)) && phase == old(PhaseAfter(b, start, s, now))
              && (phase == ProbeBw ==> cycleIndex == old(PlaceAfter(b, packetsLost, now)))
              && cwin == old(WindowAfter(start, now))
      ensures rtProp < RTT_LIMIT && rtProp == old(RtPropAfter(s.rtt, now))
    {
      hide Pipe;
      bw.Update(s.bandwidth, s.deliveredLastPacket, s.delivered, s.ackNumber);
      UpdateState(s, packetsLost, now);
    }

    // ----- Control parameters -----

    method SetPacingRate(gain: real)
      modifies this`pacingRate
      ensures pacingRate == Paced(gain, bw.btlBw, filledPipe, old(pacingRate))
    {
      var rate := gain * bw.btlBw as real;
      if filledPipe || rate > pacingRate {
        pacingRate := rate;
      }
    }

    /** The pacing rate, and the quantum that goes with it. */
    method Pace(mtu: nat)
      modifies this`pacingRate, this`sendQuantum
      ensures pacingRate == Paced(pacingGain, bw.btlBw, filledPipe, old(pacingRate))
      ensures sendQuantum == Quantum(pacingRate, mtu) && (filledPipe && bw.btlBw == 0 ==> sendQuantum == mtu)
    {
      SetPacingRate(pacingGain);
      sendQuantum := Quantum(pacingRate, mtu);
    }

    method ModulateForRecovery(s: Sample, packetsLost: nat)
      modifies this`cwin
      ensures var cut := Recovered(old(cwin), packetsLost, s.sendMtu);
              var flying := s.bytesInTransit + bytesDelivered;
              cwin == if packetConservation && cut < flying then flying else cut
    {
      if packetsLost > 0 {
        cwin := if cwin > packetsLost then cwin - packetsLost else s.sendMtu;
      }
      if packetConservation && cwin < s.bytesInTransit + bytesDelivered {
        cwin := s.bytesInTransit + bytesDelivered;
      }
    }

    method UpdateTargetCwnd()
      requires cwndGain >= 0.0
      modifies this`targetCwnd
      ensures targetCwnd == Inflight(cwndGain)
    {
      targetCwnd := Inflight(cwndGain);
    }

    /** The window follows the target once the pipe is full, grows with the deliveries before, and is cut to four
      * packets while the round trip time is probed. */
    method SetCwnd(s: Sample, packetsLost: nat)
      requires Steady()
      modifies this`cwin, this`targetCwnd
      ensures targetCwnd == Pipe(cwndGain, bw.btlBw, rtProp, sendQuantum)
      ensures var before := Recovered(old(cwin), packetsLost, s.sendMtu);
              cwin == NewWindow(before, targetCwnd, filledPipe, phase == ProbeRtt, bytesDelivered, s.delivered,
                                s.sendMtu)
    {
      hide Pipe;
      UpdateTargetCwnd();
      ModulateForRecovery(s, packetsLost);
      if !packetConservation {
        if filledPipe {
          cwin := cwin + bytesDelivered;
          if cwin > targetCwnd {
            cwin := targetCwnd;
          }
        } else if cwin < targetCwnd || s.delivered < CWIN_INITIAL {
          cwin := cwin + bytesDelivered;
          if cwin < MinPipe(s.sendMtu) {
            cwin := MinPipe(s.sendMtu);
          }
        }
      }
      if phase == ProbeRtt && cwin > MinPipe(s.sendMtu) {
        cwin := MinPipe(s.sendMtu);
      }
    }

    /** How a measurement bounds the window. */
    ghost predicate Controlled(mtu: nat)
      reads this, bw
    {
      && (filledPipe ==> cwin <= targetCwnd && (bw.btlBw == 0 ==> targetCwnd == 3 * mtu))
      && (phase == ProbeRtt ==> cwin <= MinPipe(mtu))
    }

    /** The pacing rate, the quantum, the target and the window that follow from the model. */
    method Control(s: Sample, packetsLost: nat)
      requires Steady() && rtProp < RTT_LIMIT && packetsLost == 0
      modifies this`pacingRate, this`sendQuantum, this`cwin, this`targetCwnd, this`floor
      ensures Steady() && floor == Lowered(old(floor), s.sendMtu) && Controlled(s.sendMtu)
      ensures pacingRate == Paced(pacingGain, bw.btlBw, filledPipe, old(pacingRate))
      ensures sendQuantum == Quantum(pacingRate, s.sendMtu)
      ensures targetCwnd == Pipe(cwndGain, bw.btlBw, rtProp, sendQuantum)
      ensures cwin == NewWindow(old(cwin), targetCwnd, filledPipe, phase == ProbeRtt, bytesDelivered, s.delivered,
                                s.sendMtu)
    {
      hide Pipe;
      hide Paced;
      Pace(s.sendMtu);
      ghost var before := cwin;
      SetCwnd(s, packetsLost);
      FloorKept(floor, before, targetCwnd, filledPipe, phase == ProbeRtt, bytesDelivered, s.delivered, pacingRate,
                s.sendMtu);
      floor := Lowered(floor, s.sendMtu);
    }

    /** What a measurement leads to, from the state before it and the new estimate of the bandwidth. */
    twostate predicate Measured(s: Sample, now: nat)
      requires old(Steady())
      reads this, bw
    {
      var b, start := bw.btlBw, bw.roundStart;
      && filledPipe == old(Fills(b, start, s.pathLimited)) && phase == old(PhaseAfter(b, start, s, now))
      && (phase == ProbeBw ==> cycleIndex == old(PlaceAfter(b, 0, now)))
      && rtProp == old(RtPropAfter(s.rtt, now))
      && pacingRate == Paced(pacingGain, b, filledPipe, old(pacingRate))
      && sendQuantum == Quantum(pacingRate, s.sendMtu)
      && cwndGain >= 0.0 && targetCwnd == Pipe(cwndGain, b, rtProp, sendQuantum)
      && cwin == NewWindow(old(WindowAfter(start, now)), targetCwnd, filledPipe, phase == ProbeRtt, old(bytesDelivered),
                           s.delivered, s.sendMtu)
    }

    /** The samples that the estimate of the bandwidth is taken from. */
    twostate predicate Sampled(s: Sample)
      requires old(bw.rounds) != []
      reads this, bw
    {
      && bw.lastSequenceBlocked == old(bw.lastSequenceBlocked) && WindowMax(bw.btlBw, bw.rounds)
      && if bw.lastSequenceBlocked == 0 || s.ackNumber > bw.lastSequenceBlocked
         then bw.rounds == old(bw.rounds) && bw.roundStart == old(bw.roundStart)
         else && bw.roundStart == (s.deliveredLastPacket >= old(bw.nextRoundDelivered))
              && bw.rounds == Extended(if bw.roundStart then old(bw.rounds) + [[]] else old(bw.rounds), s.bandwidth)
    }

    method UpdateOnAck(s: Sample, packetsLost: nat, now: nat)
      requires Valid() && s.rtt < RTT_LIMIT && packetsLost == 0
      modifies this, bw, bw.filter
      ensures Valid() && Sampled(s) && Measured(s, now) && losses == old(losses) && rtProp < RTT_LIMIT
      ensures floor == Lowered(old(floor), s.sendMtu) && Controlled(s.sendMtu)
    {
      hide Pipe;
      hide Paced;
      hide NewWindow;
      UpdateModelAndState(s, packetsLost, now);
      Control(s, packetsLost);
    }

    // ----- Notifications -----

    /** Congestion counts at most once per round trip and cycle, except for a first timeout. */
    predicate Filtered(smoothedRtt: nat, now: nat, isTimeout: bool)
      reads this
    {
      (!isTimeout || lastLossWasTimeout) && (now < lossIntervalStart + smoothedRtt || cycleOnLoss)
    }

    /** Congestion halves the window, or resets it after a timeout, and ends startup. */
    method Retreat(now: nat, isTimeout: bool)
      requires Valid()
      modifies this`cwin, this`lossIntervalStart, this`lastLossWasTimeout, this`filledPipe, this`cycleOnLoss
      modifies this`phase, this`pacingGain, this`cwndGain
      ensures Valid() && cwin == Halved(old(cwin), isTimeout)
      ensures lossIntervalStart == now && lastLossWasTimeout == isTimeout
      ensures phase == if old(phase) == Startup then Drain else old(phase)
      ensures filledPipe == (old(phase) == Startup || old(filledPipe))
      ensures cycleOnLoss == (old(phase) != Startup || old(cycleOnLoss))
    {
      cwin := cwin / 2;
      if isTimeout || cwin < CWIN_MINIMUM {
        cwin := CWIN_MINIMUM;
      }
      lossIntervalStart := now;
      lastLossWasTimeout := isTimeout;
      if phase == Startup {
        filledPipe := true;
        EnterDrain();
      } else {
        cycleOnLoss := true;
      }
    }

    method NotifyCongestion(smoothedRtt: nat, now: nat, isTimeout: bool)
      requires Valid()
      modifies this`cwin, this`lossIntervalStart, this`lastLossWasTimeout, this`filledPipe, this`cycleOnLoss
      modifies this`phase, this`pacingGain, this`cwndGain
      ensures Valid()
      ensures if old(Filtered(smoothedRtt, now, isTimeout)) then unchanged(this)
              else
                && cwin == Halved(old(cwin), isTimeout)
                && lossIntervalStart == now && lastLossWasTimeout == isTimeout
                && phase == (if old(phase) == Startup then Drain else old(phase))
                && filledPipe == (old(phase) == Startup || old(filledPipe))
                && cycleOnLoss == (old(phase) != Startup || old(cycleOnLoss))
    {
      if now < lossIntervalStart + smoothedRtt && (!isTimeout || lastLossWasTimeout) {
        return;
      }
      if cycleOnLoss && (!isTimeout || lastLossWasTimeout) {
        return;
      }
      Retreat(now, isTimeout);
    }

    /** A new loss that timed out, or a new repeat at a high loss rate, is congestion. */
    predicate Reacts(timeout: bool, lost: nat, smoothedRtt: nat, now: nat)
      reads this
    {
      lost > losses.lastLost && (timeout || Reported(losses, lost).rate > THRESHOLD)
      && !Filtered(smoothedRtt, now, timeout)
    }

    method OnLoss(timeout: bool, lost: nat, smoothedRtt: nat, now: nat)
      requires Valid()
      modifies this`cwin, this`lossIntervalStart, this`lastLossWasTimeout, this`filledPipe, this`cycleOnLoss
      modifies this`phase, this`pacingGain, this`cwndGain, this`losses
      ensures Valid() && losses == Reported(old(losses), lost)
      ensures var reacts := old(Reacts(timeout, lost, smoothedRtt, now));
              && cwin == (if reacts then Halved(old(cwin), timeout) else old(cwin))
              && phase == (if reacts && old(phase) == Startup then Drain else old(phase))
              && filledPipe == (old(filledPipe) || (reacts && old(phase) == Startup))
    {
      var track, high := LossTest(losses, timeout, lost);
      losses := track;
      if high {
        NotifyCongestion(smoothedRtt, now, timeout);
      }
    }

    method OnMeasurement(sample: Sample, now: nat)
      requires Valid() && sample.rtt < RTT_LIMIT
      modifies this, bw, bw.filter
      ensures Valid() && Sampled(sample) && Measured(sample, now) && Edge(old(phase), phase)
      ensures (old(filledPipe) ==> filledPipe) && losses == old(losses) && bytesDelivered == 0
      ensures floor == Lowered(old(floor), sample.sendMtu) && rtProp < RTT_LIMIT && Controlled(sample.sendMtu)
    {
      hide Pipe;
      hide Paced;
      hide NewWindow;
      UpdateOnAck(sample, 0, now);
      priorInFlight := sample.bytesInTransit;
      bytesDelivered := 0;
    }

    method Notify(n: Notification, now: nat)
      requires Valid() && Sound(n)
      modifies this, bw, bw.filter
      ensures Valid() && (old(filledPipe) ==> filledPipe) && Edge(old(phase), phase)
      ensures floor == if n.BwMeasurement? then Lowered(old(floor), n.sample.sendMtu) else old(floor)
      ensures bytesDelivered == Pending(old(bytesDelivered), n) && losses == Suffered(old(losses), n)
      ensures n.BwMeasurement? ==>
              Sampled(n.sample) && Measured(n.sample, now) && rtProp < RTT_LIMIT && Controlled(n.sample.sendMtu)
      ensures !n.BwMeasurement? ==> bw.rounds == old(bw.rounds) && bw.btlBw == old(bw.btlBw) && rtProp == old(rtProp)
      ensures !n.BwMeasurement? && !n.Loss? ==>
              cwin == old(cwin) && phase == old(phase) && filledPipe == old(filledPipe)
      ensures bw.lastSequenceBlocked == if n.CwinBlocked? then n.sequence else old(bw.lastSequenceBlocked)
      ensures n.Loss? ==>
              var reacts := old(Reacts(n.timeout, n.lost, n.smoothedRtt, now));
              && cwin == (if reacts then Halved(old(cwin), n.timeout) else old(cwin))
              && phase == (if reacts && old(phase) == Startup then Drain else old(phase))
              && filledPipe == (old(filledPipe) || (reacts && old(phase) == Startup))
    {
      hide Pipe;
      hide Paced;
      hide NewWindow;
      match n
      case Acknowledgement(bytes) => bytesDelivered := bytesDelivered + bytes;
      case Loss(timeout, lost, smoothedRtt) => OnLoss(timeout, lost, smoothedRtt, now);
      case SpuriousRepeat =>
      case RttMeasurement =>
      case BwMeasurement(sample) => OnMeasurement(sample, now);
      case CwinBlocked(sequence) => bw.lastSequenceBlocked := sequence;
    }
  }

  /** The measurements stay in the range the arithmetic is made for. */
  predicate Sound(n: Notification) {
    n.BwMeasurement? ==> n.sample.rtt < RTT_LIMIT
  }

  /** Repeats of packets at least five numbers apart are ignored, however many there are. */
  method IgnoreSparseLosses(bbr: Bbr, lost: seq<nat>, smoothedRtt: nat, now: nat)
    requires bbr.Valid() && 0.0 <= bbr.losses.rate <= 0.195 && Sparse(bbr.losses.lastLost, lost, 5)
    modifies bbr, bbr.bw, bbr.bw.filter
    ensures bbr.Valid() && bbr.cwin == old(bbr.cwin) && bbr.phase == old(bbr.phase)
    ensures bbr.losses == LossRun(old(bbr.losses), lost)
  {
    ghost var t := bbr.losses;
    for i := 0 to |lost|
      invariant bbr.Valid() && bbr.cwin == old(bbr.cwin) && bbr.phase == old(bbr.phase)
      invariant bbr.losses == LossRun(t, lost[..i])
    {
      SparsePrefix(t.lastLost, lost, i + 1);
      SparseLossesIgnored(t, lost[..i + 1]);
      assert lost[..i + 1][..i] == lost[..i];
      bbr.Notify(Loss(false, lost[i], smoothedRtt), now);
    }
    assert lost[..|lost|] == lost;
  }

  lemma {:induction false} SparsePrefix(first: nat, lost: seq<nat>, n: nat)
    requires Sparse(first, lost, 5) && n <= |lost|
    ensures Sparse(first, lost[..n], 5)
    decreases |lost|
  {
    if n == |lost| {
      assert lost[..n] == lost;
    } else {
      var rest := lost[..|lost| - 1];
      SparsePrefix(first, rest, n);
      assert rest[..n] == lost[..n];
    }
  }

  /** The phases a connection goes through follow the edges, and none of them is startup once the pipe was full. */
  ghost predicate GoodTrace(trace: seq<Phase>) {
    && (forall i :: 0 < i < |trace| ==> Edge(trace[i - 1], trace[i]))
    && (forall i, j :: 0 <= i < j < |trace| && (trace[i] == Drain || trace[i] == ProbeBw) ==> trace[j] != Startup)
    && StartupLongRtt !in trace
  }

  /** A notification and the phases around it: only measurements and losses change the phase, and a loss only ends
      startup. */
  predicate Turn(n: Notification, before: Phase, after: Phase) {
    Edge(before, after) && (n.BwMeasurement? || after == before || (n.Loss? && before == Startup && after == Drain))
  }

  ghost predicate Turns(trace: seq<Phase>, ns: seq<(Notification, nat)>) {
    |trace| == |ns| + 1 && forall i :: 0 <= i < |ns| ==> Turn(ns[i].0, trace[i], trace[i + 1])
  }

  lemma TraceMore(trace: seq<Phase>, ns: seq<(Notification, nat)>, i: nat, next: Phase)
    requires i < |ns| && GoodTrace(trace) && Turns(trace, ns[..i]) && Turn(ns[i].0, trace[i], next)
    requires Drain in trace || ProbeBw in trace ==> next != Startup
    ensures GoodTrace(trace + [next]) && Turns(trace + [next], ns[..i + 1])
  {
  }

  /** What is counted along a run. */
  datatype Tally = Tally(floor: nat, pending: nat, losses: LossTrack, blocked: nat)

  function Tallied(t: Tally, n: Notification): Tally {
    Tally(if n.BwMeasurement? then Lowered(t.floor, n.sample.sendMtu) else t.floor, Pending(t.pending, n),
          Suffered(t.losses, n), if n.CwinBlocked? then n.sequence else t.blocked)
  }

  function TallyRun(t: Tally, ns: seq<(Notification, nat)>): Tally {
    if ns == [] then t else Tallied(TallyRun(t, ns[..|ns| - 1]), ns[|ns| - 1].0)
  }

  lemma TallyMore(t: Tally, ns: seq<(Notification, nat)>, i: nat)
    requires i < |ns|
    ensures TallyRun(t, ns[..i + 1]) == Tallied(TallyRun(t, ns[..i]), ns[i].0)
  {
    assert ns[..i + 1][..i] == ns[..i];
  }

  /** Packets of 900 bytes and more leave the floor where it is. */
  lemma {:induction false} LargePacketsKeepFloor(t: Tally, ns: seq<(Notification, nat)>)
    requires t.floor <= CWIN_MINIMUM
    requires forall i :: 0 <= i < |ns| && ns[i].0.BwMeasurement? ==> ns[i].0.sample.sendMtu >= 900
    ensures TallyRun(t, ns).floor == t.floor
  {
    if ns != [] {
      LargePacketsKeepFloor(t, ns[..|ns| - 1]);
    }
  }

  ghost function TallyOf(bbr: Bbr): Tally
    reads bbr, bbr.bw
  {
    Tally(bbr.floor, bbr.bytesDelivered, bbr.losses, bbr.bw.lastSequenceBlocked)
  }

  /** Any run of notifications keeps the controller's invariant and goes through its phases in order, each for a reason.
      The window stays at or above 2700 bytes or three of the smallest packets; acknowledged bytes and losses are
      counted exactly. */
  method Run(bbr: Bbr, ns: seq<(Notification, nat)>) returns (trace: seq<Phase>)
    requires bbr.Valid() && forall i :: 0 <= i < |ns| ==> Sound(ns[i].0)
    modifies bbr, bbr.bw, bbr.bw.filter
    ensures bbr.Valid() && Turns(trace, ns) && GoodTrace(trace)
    ensures trace[0] == old(bbr.phase) && trace[|ns|] == bbr.phase
    ensures old(bbr.filledPipe) ==> bbr.filledPipe && bbr.phase != Startup
    ensures TallyOf(bbr) == TallyRun(old(TallyOf(bbr)), ns) && bbr.floor <= bbr.cwin
  {
    hide Pipe;
    hide Paced;
    hide NewWindow;
    trace := [bbr.phase];
    for i := 0 to |ns|
      invariant bbr.Valid() && Turns(trace, ns[..i]) && GoodTrace(trace)
      invariant trace[0] == old(bbr.phase) && trace[i] == bbr.phase
      invariant old(bbr.filledPipe) || Drain in trace || ProbeBw in trace ==> bbr.filledPipe
      invariant TallyOf(bbr) == TallyRun(old(TallyOf(bbr)), ns[..i])
    {
      bbr.Notify(ns[i].0, ns[i].1);
      TallyMore(old(TallyOf(bbr)), ns, i);
      TraceMore(trace, ns, i, bbr.phase);
      trace := trace + [bbr.phase];
    }
    assert ns[..|ns|] == ns;
  }

  /** A connection with packets of 800 bytes, a timeout and one measurement: the window is 2400 bytes. */
  method BelowMinimum(sample: Sample, smoothedRtt: nat) returns (bbr: Bbr)
    requires sample.sendMtu == 800 && sample.rtt < RTT_LIMIT
    ensures bbr.Valid() && bbr.cwin == 2400 < CWIN_MINIMUM
  {
    bbr := new Bbr(800, 0);
    bbr.Notify(Loss(true, 1, smoothedRtt), 1);
    bbr.Notify(BwMeasurement(sample), 2);
    assert bbr.bw.btlBw == 0;
  }
}
