/** The bottleneck bandwidth estimate of BBR (BBRUpdateBtlBw): a ten-round maximum kept in a shifting array. */
module BandwidthFilter {

  const FILTER_LENGTH := 10

  /** The largest sample of a round, or zero. */
  function Best(round: seq<nat>): (b: nat)
    ensures forall x :: x in round ==> x <= b
    ensures b == 0 || b in round
  {
    if round == [] then 0
    else
      var rest := Best(round[..|round| - 1]);
      assert round == round[..|round| - 1] + [round[|round| - 1]];
      if round[|round| - 1] > rest then round[|round| - 1] else rest
  }

  /** The best of the round `age` rounds ago. */
  function Aged(rounds: seq<seq<nat>>, age: nat): nat {
    if age < |rounds| then Best(rounds[|rounds| - 1 - age]) else 0
  }

  ghost predicate Filters(filter: seq<nat>, rounds: seq<seq<nat>>) {
    |filter| == FILTER_LENGTH && forall i :: 0 <= i < FILTER_LENGTH ==> filter[i] == Aged(rounds, i)
  }

  /** `b` is the largest of the samples of the last ten rounds, or zero if there is none. */
  ghost predicate WindowMax(b: nat, rounds: seq<seq<nat>>) {
    && (forall i, x :: |rounds| - FILTER_LENGTH <= i < |rounds| && 0 <= i && x in rounds[i] ==> x <= b)
    && (b == 0 || exists i :: |rounds| - FILTER_LENGTH <= i < |rounds| && 0 <= i && b in rounds[i])
  }

  ghost predicate IsMax(b: nat, s: seq<nat>) {
    (forall i :: 0 <= i < |s| ==> s[i] <= b) && (b == 0 || b in s)
  }

  /** The maximum of the filter is the maximum over the samples it stands for. */
  lemma FilterIsWindow(b: nat, filter: seq<nat>, rounds: seq<seq<nat>>)
    requires Filters(filter, rounds) && IsMax(b, filter)
    ensures WindowMax(b, rounds)
  {
    forall i, x | |rounds| - FILTER_LENGTH <= i < |rounds| && 0 <= i && x in rounds[i]
      ensures x <= b
    {
      var age := |rounds| - 1 - i;
      assert filter[age] == Aged(rounds, age);
    }
    if b != 0 {
      var age :| 0 <= age < |filter| && filter[age] == b;
      assert b in rounds[|rounds| - 1 - age];
    }
  }

  lemma MaxCons(best: nat, b: nat, s: seq<nat>)
    requires IsMax(best, s)
    ensures IsMax(if b > best then b else best, [b] + s)
  {
  }

  lemma MaxGrows(best: nat, filter: seq<nat>, i: nat)
    requires i < |filter| - 1 && IsMax(best, filter[i + 1..|filter| - 1])
    ensures IsMax(if filter[i] > best then filter[i] else best, filter[i..|filter| - 1])
  {
  }

  lemma MovedUp(filter: seq<nat>, i: nat)
    requires i < |filter| - 1
    ensures var now := filter[..i + 2] + filter[i + 1..|filter| - 1];
            now[i] == filter[i] && now[i + 1 := filter[i]] == filter[..i + 1] + filter[i..|filter| - 1]
  {
  }

  lemma Shifted(filter: seq<nat>, rounds: seq<seq<nat>>)
    requires Filters(filter, rounds)
    ensures Filters([0] + filter[..FILTER_LENGTH - 1], rounds + [[]])
  {
  }

  lemma Taken(filter: seq<nat>, b: nat, rounds: seq<seq<nat>>, estimate: nat)
    requires Filters(filter, rounds) && IsMax(b, filter) && rounds != []
    ensures var filter' := if estimate > filter[0] then filter[0 := estimate] else filter;
            && Filters(filter', Extended(rounds, estimate))
            && IsMax(if estimate > filter[0] && estimate > b then estimate else b, filter')
  {
    var last := rounds[|rounds| - 1];
    assert (last + [estimate])[..|last|] == last;
    assert filter[0] == Aged(rounds, 0) == Best(last);
    var filter' := if estimate > filter[0] then filter[0 := estimate] else filter;
    forall k | 0 < k < FILTER_LENGTH
      ensures filter'[k] == Aged(Extended(rounds, estimate), k)
    {
      assert filter[k] == Aged(rounds, k);
    }
    if estimate > filter[0] && b != 0 && estimate <= b {
      var i :| 0 <= i < |filter| && filter[i] == b;
      assert filter'[i] == b;
    }
    assert filter'[0] in filter';
  }

  class BandwidthFilter {
    const filter: array<nat>
    var btlBw: nat
    var nextRoundDelivered: nat
    var roundStart: bool
    var roundCount: nat
    var lastSequenceBlocked: nat
    ghost var rounds: seq<seq<nat>>

    ghost predicate Valid()
      reads this, filter
    {
      && filter.Length == FILTER_LENGTH && rounds != []
      && Filters(filter[..], rounds)
      && IsMax(btlBw, filter[..])
    }

    constructor ()
      ensures Valid() && fresh(filter) && rounds == [[]] && lastSequenceBlocked == 0
    {
      filter := new nat[FILTER_LENGTH](_ => 0);
      btlBw, nextRoundDelivered, roundStart, roundCount, lastSequenceBlocked := 0, 0, false, 0, 0;
      rounds := [[]];
    }

    /** Moves every place of the filter up by one and returns the maximum of what is kept. */
    method MoveUp() returns (best: nat)
      requires filter.Length == FILTER_LENGTH
      modifies filter
      ensures filter[..] == [0] + old(filter[..FILTER_LENGTH - 1]) && IsMax(best, filter[..])
    {
      ghost var before := filter[..];
      best := 0;
      var i := FILTER_LENGTH - 2;
      while i >= 0
        invariant -1 <= i <= FILTER_LENGTH - 2
        invariant filter[..] == before[..i + 2] + before[i + 1..FILTER_LENGTH - 1]
        invariant IsMax(best, before[i + 1..FILTER_LENGTH - 1])
      {
        MovedUp(before, i);
        MaxGrows(best, before, i);
        var b := filter[i];
        filter[i + 1] := b;
        if b > best {
          best := b;
        }
        i := i - 1;
      }
      filter[0] := 0;
      MaxCons(best, 0, before[..FILTER_LENGTH - 1]);
    }

    /** Forgets the oldest round and opens a new one. */
    method Shift()
      requires Valid()
      modifies this`btlBw, this`rounds, filter
      ensures Valid() && rounds == old(rounds) + [[]]
    {
      Shifted(filter[..], rounds);
      assert filter[..][..FILTER_LENGTH - 1] == filter[..FILTER_LENGTH - 1];
      btlBw := MoveUp();
      rounds := rounds + [[]];
    }

    /** Takes a sample into the current round. */
    method Take(estimate: nat)
      requires Valid()
      modifies this`btlBw, this`rounds, filter
      ensures Valid() && rounds == Extended(old(rounds), estimate)
    {
      Taken(filter[..], btlBw, rounds, estimate);
      rounds := Extended(rounds, estimate);
      if estimate > filter[0] {
        filter[0] := estimate;
        if estimate > btlBw {
          btlBw := estimate;
        }
      }
    }

    method Accept(estimate: nat, deliveredLastPacket: nat, delivered: nat)
      requires Valid()
      modifies this`btlBw, this`rounds, this`nextRoundDelivered, this`roundCount, this`roundStart, filter
      ensures Valid() && roundStart == (deliveredLastPacket >= old(nextRoundDelivered))
      ensures rounds == Extended(if roundStart then old(rounds) + [[]] else old(rounds), estimate)
    {
      if deliveredLastPacket >= nextRoundDelivered {
        nextRoundDelivered := delivered;
        roundCount := roundCount + 1;
        roundStart := true;
      } else {
        roundStart := false;
      }
      if roundStart {
        Shift();
      }
      Take(estimate);
    }

    /** A new estimate counts only if the window was the limit; the result is the maximum over ten rounds. */
    method Update(estimate: nat, deliveredLastPacket: nat, delivered: nat, ackNumber: nat)
      requires Valid()
      modifies this`btlBw, this`rounds, this`nextRoundDelivered, this`roundCount, this`roundStart, filter
      ensures Valid() && WindowMax(btlBw, rounds)
      ensures if lastSequenceBlocked == 0 || ackNumber > lastSequenceBlocked
              then rounds == old(rounds) && roundStart == old(roundStart)
              else && roundStart == (deliveredLastPacket >= old(nextRoundDelivered))
                   && rounds == Extended(if roundStart then old(rounds) + [[]] else old(rounds), estimate)
    {
      if lastSequenceBlocked != 0 && (lastSequenceBlocked == 0 || ackNumber <= lastSequenceBlocked) {
        Accept(estimate, deliveredLastPacket, delivered);
      }
      FilterIsWindow(btlBw, filter[..], rounds);
    }
  }

  /** The rounds with one more sample in the last. */
  function Extended(rounds: seq<seq<nat>>, estimate: nat): seq<seq<nat>>
    requires rounds != []
  {
    rounds[..|rounds| - 1] + [rounds[|rounds| - 1] + [estimate]]
  }
}
