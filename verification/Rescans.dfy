/**
 When a rescan is safe. Rescan turns a height into the hash of the active chain's block and
 makes it the cursor. That is safe on the path of the cursor, and off it only as long as the
 blocks there receive nothing new; a height at or below the cursor implies neither after a
 reorganisation. A rescan also comes to nothing when a poll that was under way saves its own
 cursor over it.
 */
module Rescans {
  import opened Tables
  import opened Watcher

  /**
   A write of `target` over `cursor` leaves nothing unsent at or below the cursor, whatever
   else was sent, exactly when the target's blocks receive nothing that the cursor's do not.
   */
  lemma {:induction false} RescanIsSafeExactly(target: Path, cursor: Path)
    ensures ReceivedIn(target) <= ReceivedIn(cursor)
       <==> forall sent :: Covered(cursor, sent) ==> Covered(target, sent)
  {
    forall sent
      ensures Covered(cursor, sent) <==> ReceivedIn(cursor) <= sent
      ensures Covered(target, sent) <==> ReceivedIn(target) <= sent
    {
      CoveredExactly(cursor, sent);
      CoveredExactly(target, sent);
    }
  }

  /** On the cursor's path it always is; off the path, as soon as one block there receives something new, it is not. */
  lemma {:induction false} OnPathIsSafe(target: Path, cursor: Path)
    ensures target <= cursor ==> ReceivedIn(target) <= ReceivedIn(cursor)
    ensures ReceivedIn(target) <= ReceivedIn(cursor)
       <==> forall i | Shared(target, cursor) <= i < |target| :: Received(target[i]) <= ReceivedIn(cursor)
  {
    var all, n := ReceivedIn(cursor), Shared(target, cursor);
    CoveredExactly(cursor, all);
    CoveredExactly(target, all);
    forall i | 0 <= i < |target|
      ensures BlockCovered(target[i], all) <==> Received(target[i]) <= all
      ensures i < n ==> BlockCovered(target[i], all)
    {
      BlockCoveredExactly(target[i], all);
      if i < n {
        assert target[i] == target[..n][i] == cursor[..n][i] == cursor[i];
      }
    }
    if target <= cursor {
      PrefixCovered(target, cursor, all);
    }
  }

  lemma {:induction false} StepThen(s: System, step: Step, rest: seq<Step>)
    requires Enabled(s, step) && Allowed(Apply(s, step), rest)
    ensures Allowed(s, [step] + rest) && Exec(s, [step] + rest) == Exec(Apply(s, step), rest)
  {
    assert ([step] + rest)[0] == step && ([step] + rest)[1..] == rest;
  }

  function Fresh(chain: Path, db: DB): System {
    System(chain, [], db, Resting, false, [], [], None, map[], {})
  }

  /** A poll that finds nothing to send, from request to save. */
  lemma {:induction false} QuietPoll(s: System, listing: Listing, first: Step)
    requires s.polling.Resting? && (first == PollOnTimer || (first == PollOnRequest && s.pollNow))
    requires Answers(listing, s.cursor, s.chain) && listing.transactions == [] == listing.removed && s.chain != []
    ensures
      var steps := [first, Answer(listing), SaveCursor(true)];
      && Allowed(s, steps)
      && Exec(s, steps) == s.(cursor := s.chain, pollNow := s.pollNow && first == PollOnTimer)
  {
    var s1 := Apply(s, first);
    var s2 := Apply(s1, Answer(listing));
    StepThen(s2, SaveCursor(true), []);
    StepThen(s1, Answer(listing), [SaveCursor(true)]);
    StepThen(s, first, [Answer(listing), SaveCursor(true)]);
    assert [first] + ([Answer(listing)] + [SaveCursor(true)]) == [first, Answer(listing), SaveCursor(true)];
    assert [Answer(listing)] + [SaveCursor(true)] == [Answer(listing), SaveCursor(true)];
  }

  /**
   The first poll saves a cursor at height 1, a reorganisation replaces that block by one that
   receives a payment, and a rescan from height 1 makes the new block the cursor.
   */
  function SkippingRun(genesis: Block, missed: Block, tip: Block, old_: Block): seq<Step> {
    [PollOnTimer, Answer(Listing([], [], [genesis, old_])), SaveCursor(true)]
    + [ChainMoves([genesis, missed, tip])] + [RescanAsks(0, 1)] + [RescanSaves(0, true)]
    + [PollOnRequest, Answer(Listing([], [], [genesis, missed, tip])), SaveCursor(true)]
  }

  lemma {:induction false} RunThen(s: System, first: seq<Step>, second: seq<Step>)
    requires Allowed(s, first) && Allowed(Exec(s, first), second)
    ensures Allowed(s, first + second) && Exec(s, first + second) == Exec(Exec(s, first), second)
    decreases |first|
  {
    if first == [] {
      assert first + second == second;
    } else {
      assert (first + second)[1..] == first[1..] + second;
      RunThen(Apply(s, first[0]), first[1..], second);
    }
  }

  lemma {:induction false} OneStep(s: System, step: Step)
    requires Enabled(s, step)
    ensures Allowed(s, [step]) && Exec(s, [step]) == Apply(s, step)
  {
    assert [step][1..] == [];
  }

  lemma {:induction false} SharedPrefix(a: Path, b: Path)
    requires a <= b
    ensures Shared(a, b) == |a|
  {
    assert forall k | 0 <= k < |a| :: a[k] == b[k];
  }

  /** A rescan to the cursor's own height can skip a payment for good: the cursor reaches the tip and nothing was sent. */
  lemma RescanCanSkip(genesis: Block, missed: Block, tip: Block, old_: Block, db: DB)
    requires genesis.outputs == [] == old_.outputs && tip.outputs == [] && Received(missed) != {}
    ensures
      var s, steps := Fresh([genesis, old_], db), SkippingRun(genesis, missed, tip, old_);
      && Initial(s) && Allowed(s, steps)
      && var t := Exec(s, steps);
         t.cursor == t.chain == [genesis, missed, tip] && t.sent == {} && !Covered(t.cursor, t.sent)
  {
    var s := Fresh([genesis, old_], db);
    var chain := [genesis, missed, tip];
    var poll := [PollOnTimer, Answer(Listing([], [], [genesis, old_])), SaveCursor(true)];
    QuietPoll(s, Listing([], [], [genesis, old_]), PollOnTimer);
    var s1 := Exec(s, poll);
    OneStep(s1, ChainMoves(chain));
    var s2 := Apply(s1, ChainMoves(chain));
    OneStep(s2, RescanAsks(0, 1));
    var s3 := Apply(s2, RescanAsks(0, 1));
    assert s3.rescans[0] == [genesis, missed];
    OneStep(s3, RescanSaves(0, true));
    var s4 := Apply(s3, RescanSaves(0, true));
    SharedPrefix([genesis, missed], chain);
    QuietPoll(s4, Listing([], [], chain), PollOnRequest);
    var again := [PollOnRequest, Answer(Listing([], [], chain)), SaveCursor(true)];
    RunThen(s, poll, [ChainMoves(chain)]);
    RunThen(s, poll + [ChainMoves(chain)], [RescanAsks(0, 1)]);
    RunThen(s, poll + [ChainMoves(chain)] + [RescanAsks(0, 1)], [RescanSaves(0, true)]);
    RunThen(s, poll + [ChainMoves(chain)] + [RescanAsks(0, 1)] + [RescanSaves(0, true)], again);
    BlockCoveredExactly(missed, {});
    assert !BlockCovered(chain[1], {});
  }

  function LosingRun(tip: Path): seq<Step> {
    [PollOnTimer, Answer(Listing([], [], tip)), SaveCursor(true)]
    + [PollOnTimer] + [Answer(Listing([], [], tip))] + [RescanAsks(0, 0)] + [RescanSaves(0, true)]
    + [SaveCursor(true)] + [PollOnRequest]
  }

  /** A poll under way saves its cursor over the rescan's: the poll that the rescan requested asks from the tip. */
  lemma RescanCanBeLost(genesis: Block, block: Block, db: DB)
    requires genesis.outputs == [] == block.outputs
    ensures
      var tip := [genesis, block];
      var s := Fresh(tip, db);
      && Initial(s) && Allowed(s, LosingRun(tip))
      && Exec(s, LosingRun(tip)).polling == Asking(tip) && !Exec(s, LosingRun(tip)).pollNow
  {
    var tip := [genesis, block];
    var s, listing := Fresh(tip, db), Listing([], [], tip);
    var poll := [PollOnTimer, Answer(listing), SaveCursor(true)];
    QuietPoll(s, listing, PollOnTimer);
    var s1 := Exec(s, poll);
    OneStep(s1, PollOnTimer);
    var s2 := Apply(s1, PollOnTimer);
    OneStep(s2, Answer(listing));
    var s3 := Apply(s2, Answer(listing));
    OneStep(s3, RescanAsks(0, 0));
    var s4 := Apply(s3, RescanAsks(0, 0));
    OneStep(s4, RescanSaves(0, true));
    var s5 := Apply(s4, RescanSaves(0, true));
    OneStep(s5, SaveCursor(true));
    var s6 := Apply(s5, SaveCursor(true));
    OneStep(s6, PollOnRequest);
    RunThen(s, poll, [PollOnTimer]);
    RunThen(s, poll + [PollOnTimer], [Answer(listing)]);
    RunThen(s, poll + [PollOnTimer] + [Answer(listing)], [RescanAsks(0, 0)]);
    RunThen(s, poll + [PollOnTimer] + [Answer(listing)] + [RescanAsks(0, 0)], [RescanSaves(0, true)]);
    RunThen(s, poll + [PollOnTimer] + [Answer(listing)] + [RescanAsks(0, 0)] + [RescanSaves(0, true)], [SaveCursor(true)]);
    RunThen(s, poll + [PollOnTimer] + [Answer(listing)] + [RescanAsks(0, 0)] + [RescanSaves(0, true)] + [SaveCursor(true)],
            [PollOnRequest]);
  }

  /** No poll starts and no other rescan is written. */
  ghost predicate LeftAlone(steps: seq<Step>) {
    forall i | 0 <= i < |steps| ::
      !steps[i].PollOnTimer? && !steps[i].PollOnRequest? && !(steps[i].RescanSaves? && steps[i].ok)
  }

  /** No poll is under way that may still save a cursor other than the target. */
  predicate Unthreatened(polling: Polling, target: Path) {
    polling.Resting? || (polling.Sending? && (polling.next == [] || polling.next == target))
  }

  lemma {:induction false} UnthreatenedStays(s: System, steps: seq<Step>, target: Path)
    requires s.cursor == target && Unthreatened(s.polling, target) && Allowed(s, steps) && LeftAlone(steps)
    ensures Exec(s, steps).cursor == target
    decreases |steps|
  {
    if steps != [] {
      assert forall i | 0 <= i < |steps| - 1 :: steps[1..][i] == steps[i + 1];
      UnthreatenedStays(Apply(s, steps[0]), steps[1..], target);
    }
  }

  /** A poll that has its answer can be brought to its end, however full the channels are, and saves. */
  lemma {:induction false} SavesAtLast(s: System) returns (steps: seq<Step>)
    requires s.polling.Sending?
    ensures Allowed(s, steps) && LeftAlone(steps)
    ensures Exec(s, steps).polling.Resting?
    ensures Exec(s, steps).cursor == if s.polling.next != [] then s.polling.next else s.cursor
    decreases |s.polling.events| + |s.polling.removals|, |s.queue| + |s.removedQueue|, s.handling.Some?
  {
    var handled := FinishEvent(Pipeline.Policy(0, 0, 0, 0), 0, 0, false);
    var step: Step;
    if s.polling.events != [] {
      step := if |s.queue| < CAPACITY then SendEvent else if s.handling.Some? then handled else TakeEvent;
    } else if s.polling.removals != [] {
      step := if |s.removedQueue| < CAPACITY then SendRemoval else if s.handling.Some? then handled else HandleRemoval(false);
    } else {
      OneStep(s, SaveCursor(true));
      return [SaveCursor(true)];
    }
    var rest := SavesAtLast(Apply(s, step));
    StepThen(s, step, rest);
    steps := [step] + rest;
  }

  /** A poll that has only asked may still be answered with any tip. */
  lemma AnswersElsewhere(s: System, target: Path) returns (steps: seq<Step>)
    requires s.polling.Asking?
    ensures Allowed(s, steps) && LeftAlone(steps)
    ensures Exec(s, steps).polling.Resting? && Exec(s, steps).cursor != target
  {
    var empty := Block("", []);
    var chain := if target == [empty] then [Block("other", [])] else [empty];
    var moved := Apply(s, ChainMoves(chain));
    var answer := Answer(Listing([], [], chain));
    assert Enabled(moved, answer);
    var rest := SavesAtLast(Apply(moved, answer));
    StepThen(moved, answer, rest);
    StepThen(s, ChainMoves(chain), [answer] + rest);
    steps := [ChainMoves(chain)] + ([answer] + rest);
  }

  /** Whatever happens next, short of a new poll or another rescan, the target is the cursor once the poller rests. */
  ghost predicate TakesEffect(s: System, target: Path) {
    forall steps | Allowed(s, steps) && LeftAlone(steps) && Exec(s, steps).polling.Resting? ::
      Exec(s, steps).cursor == target
  }

  /**
   A rescan is sure to be the cursor that the next poll asks from exactly when no poll is under
   way at its write, or one that has its answer and will save nothing, or the same block.
   */
  lemma RescanTakesEffectExactly(s: System, call: nat)
    requires call in s.rescans
    ensures TakesEffect(Apply(s, RescanSaves(call, true)), s.rescans[call]) <==> Unthreatened(s.polling, s.rescans[call])
  {
    var target, t := s.rescans[call], Apply(s, RescanSaves(call, true));
    if Unthreatened(s.polling, target) {
      forall steps | Allowed(t, steps) && LeftAlone(steps) && Exec(t, steps).polling.Resting?
        ensures Exec(t, steps).cursor == target
      {
        UnthreatenedStays(t, steps, target);
      }
    } else {
      ghost var steps: seq<Step>;
      if t.polling.Asking? {
        steps := AnswersElsewhere(t, target);
      } else {
        steps := SavesAtLast(t);
      }
      assert Exec(t, steps).cursor != target;
    }
  }
}
