/** The New Reno congestion controller (newreno.c). */
module NewReno {

  const CWIN_INITIAL := 13500
  const CWIN_MINIMUM := 2700
  const UINT64 := 0x1_0000_0000_0000_0000
  const NO_THRESHOLD := UINT64 - 1

  datatype Phase = SlowStart | CongestionAvoidance
  datatype Notification =
    | Acknowledgement(bytes: nat, sendMtu: nat, ackNumber: nat)
    | Repeat
    | Timeout
    | SpuriousRepeat
    | CwinBlocked(sequence: nat)

  /** The window and the part of a byte of growth carried over to the next acknowledgement. */
  datatype Window = Window(cwin: nat, residual: nat)

  /** The carried part is less than one byte of growth. */
  predicate Carried(w: Window) {
    w.residual < w.cwin
  }

  /** An acknowledgement in congestion avoidance. */
  function Grown(w: Window, acked: nat, mtu: nat): (r: Window)
    requires Carried(w)
    ensures Carried(r) && r.cwin >= w.cwin
  {
    var complete := acked * mtu + w.residual;
    Window(w.cwin + complete / w.cwin, complete % w.cwin)
  }

  function GrownAll(w: Window, acks: seq<nat>, mtu: nat): (r: Window)
    requires Carried(w)
    ensures Carried(r) && r.cwin >= w.cwin
  {
    if acks == [] then w else Grown(GrownAll(w, acks[..|acks| - 1], mtu), acks[|acks| - 1], mtu)
  }

  function Total(acks: seq<nat>): nat {
    if acks == [] then 0 else Total(acks[..|acks| - 1]) + acks[|acks| - 1]
  }

  /** Each byte of growth is paid for, at the price of the window when it was granted: the smallest window
    * bounds what was granted from above and the largest from below. */
  predicate Paid(w: Window, r: Window, credit: nat)
    requires w.cwin <= r.cwin
  {
    && (r.cwin - w.cwin) * w.cwin + r.residual <= w.residual + credit
    && w.residual + credit <= (r.cwin - w.cwin) * r.cwin + r.residual
  }

  lemma PaidNext(w: Window, before: Window, more: nat, residual: nat, credit: nat, extra: nat)
    requires w.cwin <= before.cwin && Paid(w, before, credit)
    requires extra + before.residual == more * before.cwin + residual
    ensures Paid(w, Window(before.cwin + more, residual), credit + extra)
  {
    PaidStep(w.cwin, before.cwin, more);
  }

  lemma GrownPaid(w: Window, before: Window, acked: nat, mtu: nat, credit: nat)
    requires Carried(before) && w.cwin <= before.cwin && Paid(w, before, credit)
    ensures Paid(w, Grown(before, acked, mtu), credit + acked * mtu)
  {
    var extra := acked * mtu;
    var complete := extra + before.residual;
    Divided(complete, before.cwin);
    PaidNext(w, before, complete / before.cwin, complete % before.cwin, credit, extra);
  }

  function Credit(acks: seq<nat>, mtu: nat): nat {
    if acks == [] then 0 else Credit(acks[..|acks| - 1], mtu) + acks[|acks| - 1] * mtu
  }

  lemma {:induction false} CreditTotal(acks: seq<nat>, mtu: nat)
    ensures Credit(acks, mtu) == mtu * Total(acks)
  {
    if acks != [] {
      CreditTotal(acks[..|acks| - 1], mtu);
      Distribute(mtu, Total(acks[..|acks| - 1]), acks[|acks| - 1]);
    }
  }

  lemma Distribute(p: nat, a: nat, b: nat)
    ensures p * (a + b) == p * a + b * p
  {
  }

  lemma {:induction false} GrowthIsPaid(w: Window, acks: seq<nat>, mtu: nat)
    requires Carried(w)
    ensures Paid(w, GrownAll(w, acks, mtu), Credit(acks, mtu))
  {
    if acks != [] {
      var rest := acks[..|acks| - 1];
      GrowthIsPaid(w, rest, mtu);
      GrownPaid(w, GrownAll(w, rest, mtu), acks[|acks| - 1], mtu, Credit(rest, mtu));
    }
  }

  lemma Divided(n: nat, d: nat)
    requires d > 0
    ensures n == n / d * d + n % d
  {
  }

  lemma PaidStep(least: nat, cwin: nat, more: nat)
    requires least <= cwin
    ensures (cwin + more - least) * least <= (cwin - least) * least + more * cwin
    ensures (cwin - least) * cwin + more * cwin <= (cwin + more - least) * (cwin + more)
  {
  }

  lemma Times(p: nat, a: nat, b: nat)
    requires a <= b
    ensures p * a <= p * b
  {
  }

  /** A window's worth of acknowledgements, however they are split, grows the window by at most one packet; and
    * by no less than one packet scaled by how much the window has grown meanwhile, less one byte. */
  lemma GrowthBounded(w: Window, acks: seq<nat>, mtu: nat)
    requires Carried(w)
    ensures var r := GrownAll(w, acks, mtu);
            && (Total(acks) <= w.cwin ==> r.cwin <= w.cwin + mtu)
            && (r.cwin - w.cwin + 1) * r.cwin > mtu * Total(acks)
  {
    var r := GrownAll(w, acks, mtu);
    GrowthIsPaid(w, acks, mtu);
    CreditTotal(acks, mtu);
    var growth := r.cwin - w.cwin;
    if Total(acks) <= w.cwin {
      AtMost(growth, w.cwin, w.residual, mtu, Total(acks));
    }
    OneMore(growth, r.cwin);
  }

  lemma OneMore(a: nat, b: nat)
    ensures (a + 1) * b == a * b + b
  {
  }

  lemma AtMost(growth: nat, cwin: nat, residual: nat, mtu: nat, total: nat)
    requires growth * cwin <= residual + mtu * total && residual < cwin && total <= cwin
    ensures growth <= mtu
  {
    Times(mtu, total, cwin);
    OneMore(mtu, cwin);
    if growth > mtu {
      Times(cwin, mtu + 1, growth);
    }
  }

  /** What a loss leaves of the window. */
  function Halved(cwin: nat): nat {
    if cwin / 2 < CWIN_MINIMUM then CWIN_MINIMUM else cwin / 2
  }

  class NewReno {
    var cwin: nat
    var phase: Phase
    var residualAck: nat
    var ssthresh: nat
    var recoveryStart: nat
    var lastSequenceBlocked: nat

    predicate Valid()
      reads this
    {
      && CWIN_MINIMUM <= cwin && residualAck < cwin
      && CWIN_MINIMUM <= ssthresh
    }

    constructor ()
      ensures Valid() && cwin == CWIN_INITIAL && phase == SlowStart && residualAck == 0
    {
      cwin, phase, residualAck, ssthresh, recoveryStart := CWIN_INITIAL, SlowStart, 0, NO_THRESHOLD, 0;
      lastSequenceBlocked := 0;
    }

    method EnterRecovery(timeout: bool, now: nat)
      requires Valid()
      modifies this
      ensures Valid() && ssthresh == Halved(old(cwin)) && recoveryStart == now && residualAck == 0
      ensures cwin == (if timeout then CWIN_MINIMUM else ssthresh)
      ensures phase == (if timeout then SlowStart else CongestionAvoidance)
      ensures lastSequenceBlocked == old(lastSequenceBlocked)
    {
      ssthresh := cwin / 2;
      if ssthresh < CWIN_MINIMUM {
        ssthresh := CWIN_MINIMUM;
      }
      if timeout {
        cwin := CWIN_MINIMUM;
        phase := SlowStart;
      } else {
        cwin := ssthresh;
        phase := CongestionAvoidance;
      }
      recoveryStart := now;
      residualAck := 0;
    }

    method Grow(bytes: nat, sendMtu: nat)
      requires Valid()
      modifies this`cwin, this`residualAck
      ensures Valid() && Window(cwin, residualAck) == Grown(old(Window(cwin, residualAck)), bytes, sendMtu)
    {
      ghost var r := Grown(Window(cwin, residualAck), bytes, sendMtu);
      var complete := bytes * sendMtu + residualAck;
      residualAck := complete % cwin;
      cwin := cwin + complete / cwin;
      assert Window(cwin, residualAck) == r;
    }

    /** Acknowledgements never shrink the window; losses shrink it, at most once per round trip and never below the
      * minimum; a spurious loss restores at least what the threshold remembers. */
    method Notify(n: Notification, smoothedRtt: nat, now: nat)
      requires Valid()
      modifies this
      ensures Valid()
      ensures n.Acknowledgement? && old(phase) == CongestionAvoidance ==>
        phase == old(phase) && Window(cwin, residualAck) == Grown(old(Window(cwin, residualAck)), n.bytes, n.sendMtu)
      ensures n.Acknowledgement? && old(phase) == SlowStart ==>
        var grows := old(lastSequenceBlocked) == 0 || n.ackNumber <= old(lastSequenceBlocked);
        && cwin == old(cwin) + (if grows then n.bytes else 0)
        && phase == (if grows && cwin >= ssthresh then CongestionAvoidance else SlowStart)
      ensures n.Repeat? || n.Timeout? ==>
        if (now - old(recoveryStart)) % UINT64 > smoothedRtt
        then cwin == (if n.Timeout? then CWIN_MINIMUM else Halved(old(cwin))) && recoveryStart == now
        else cwin == old(cwin) && recoveryStart == old(recoveryStart)
      ensures n.SpuriousRepeat? ==>
        var doubled := 2 * old(ssthresh) % UINT64;
        cwin == if (now - recoveryStart) % UINT64 < smoothedRtt && old(cwin) < doubled then doubled else old(cwin)
      ensures n.CwinBlocked? ==> cwin == old(cwin) && lastSequenceBlocked == n.sequence
      ensures !n.Repeat? && !n.Timeout? ==> ssthresh == old(ssthresh) && recoveryStart == old(recoveryStart)
    {
      match n
      case Acknowledgement(bytes, sendMtu, ackNumber) =>
        if phase == SlowStart {
          if lastSequenceBlocked == 0 || ackNumber <= lastSequenceBlocked {
            cwin := cwin + bytes;
            if cwin >= ssthresh {
              phase := CongestionAvoidance;
            }
          }
        } else {
          Grow(bytes, sendMtu);
        }
      case Repeat =>
        if (now - recoveryStart) % UINT64 > smoothedRtt {
          EnterRecovery(false, now);
        }
      case Timeout =>
        if (now - recoveryStart) % UINT64 > smoothedRtt {
          EnterRecovery(true, now);
        }
      case SpuriousRepeat =>
        if (now - recoveryStart) % UINT64 < smoothedRtt {
          var doubled := 2 * ssthresh % UINT64;
          if cwin < doubled {
            cwin := doubled;
            phase := CongestionAvoidance;
          }
        }
      case CwinBlocked(sequence) => lastSequenceBlocked := sequence;
    }

    /** A run of acknowledgements in congestion avoidance, with packets of one size. */
    method Avoid(acks: seq<nat>, mtu: nat, smoothedRtt: nat, now: nat, ackNumber: nat)
      requires Valid() && phase == CongestionAvoidance
      modifies this
      ensures Valid() && phase == CongestionAvoidance
      ensures Window(cwin, residualAck) == GrownAll(old(Window(cwin, residualAck)), acks, mtu)
      ensures Total(acks) <= old(cwin) ==> cwin <= old(cwin) + mtu
    {
      ghost var w := Window(cwin, residualAck);
      for i := 0 to |acks|
        invariant Valid() && phase == CongestionAvoidance
        invariant Window(cwin, residualAck) == GrownAll(w, acks[..i], mtu)
      {
        assert acks[..i + 1][..i] == acks[..i];
        Notify(Acknowledgement(acks[i], mtu, ackNumber), smoothedRtt, now);
      }
      assert acks[..|acks|] == acks;
      GrowthBounded(w, acks, mtu);
    }
  }
}
