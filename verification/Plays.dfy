/**
 Whose token plays where: over every run, the redemption pulses are the redemptions that went
 through, in order, each for the machine that was asked for and the redeemer's heir.
 */
module Plays {
  import opened Tables
  import opened Economy
  import AddressWrites
  import Ledger
  import Redemption
  import References

  datatype Play = Play(user: nat, machine: nat)

  function Redemptions(pulses: seq<Pulse>): seq<Pulse> {
    if pulses == [] then []
    else
      var n := |pulses| - 1;
      Redemptions(pulses[..n]) + if pulses[n].source == TokenRedemption then [pulses[n]] else []
  }

  /** The redemption that a step makes, if it goes through. */
  ghost function Made(s: System, step: Step): seq<Play> {
    if && step.Redeem? && step.machine in s.db.machines && s.db.machines[step.machine].active
       && step.user in s.db.users && Ledger.Balance(s.db.ledger, step.user) >= 1
    then [Play(step.user, step.machine)] else []
  }

  ghost function AllMade(s: System, steps: seq<Step>): seq<Play>
    requires Allowed(s, steps)
    decreases |steps|
  {
    if steps == [] then [] else Made(s, steps[0]) + AllMade(Apply(s, steps[0]), steps[1..])
  }

  /** The pulse is the play's, whoever its user has become. */
  ghost predicate Carries(pulse: Pulse, play: Play, heirs: map<nat, nat>) {
    pulse.machine == play.machine && play.user in heirs && pulse.user == Some(heirs[play.user])
  }

  ghost predicate AllCarried(pulses: seq<Pulse>, plays: seq<Play>, heirs: map<nat, nat>) {
    |pulses| == |plays| && forall i | 0 <= i < |pulses| :: Carries(pulses[i], plays[i], heirs)
  }

  ghost predicate OwnHeirs(users: set<nat>, heirs: map<nat, nat>) {
    forall u | u in users :: u in heirs && heirs[u] == u
  }

  ghost predicate Inv(s: System, plays: seq<Play>) {
    && Refs(s) && OwnHeirs(s.db.users, s.history.heirs)
    && AllCarried(Redemptions(s.db.pulses), plays, s.history.heirs)
  }

  lemma {:induction false} RedemptionsRenamed(before: seq<Pulse>, after: seq<Pulse>, from: nat, to: nat)
    requires |after| == |before|
    requires forall p | 0 <= p < |before| ::
               && after[p].source == before[p].source && after[p].machine == before[p].machine
               && after[p].user == AddressWrites.Renamed(before[p].user, from, to)
    ensures
      var old_, new_ := Redemptions(before), Redemptions(after);
      && |new_| == |old_|
      && forall i | 0 <= i < |old_| ::
           new_[i].machine == old_[i].machine && new_[i].user == AddressWrites.Renamed(old_[i].user, from, to)
  {
    if before != [] {
      var n := |before| - 1;
      RedemptionsRenamed(before[..n], after[..n], from, to);
    }
  }

  lemma {:induction false} DirectPulsesDoNotCount(pulses: seq<Pulse>, more: seq<Pulse>)
    requires forall p | 0 <= p < |more| :: more[p].source == Source.DirectPay
    ensures Redemptions(pulses + more) == Redemptions(pulses)
  {
    if more == [] {
      assert pulses + more == pulses;
    } else {
      var n := |more| - 1;
      assert (pulses + more)[..|pulses| + n] == pulses + more[..n];
      DirectPulsesDoNotCount(pulses, more[..n]);
    }
  }

  lemma {:induction false} OneMore(pulses: seq<Pulse>, plays: seq<Play>, heirs: map<nat, nat>, pulse: Pulse, play: Play)
    requires AllCarried(Redemptions(pulses), plays, heirs)
    requires pulse.source == TokenRedemption && Carries(pulse, play, heirs)
    ensures AllCarried(Redemptions(pulses + [pulse]), plays + [play], heirs)
  {
    assert (pulses + [pulse])[..|pulses|] == pulses;
  }

  lemma RedeemKeeps(s: System, user: nat, machine: nat, plays: seq<Play>)
    requires Inv(s, plays)
    ensures Inv(Apply(s, Step.Redeem(user, machine)), plays + Made(s, Step.Redeem(user, machine)))
  {
    References.RefsKept(s, Step.Redeem(user, machine));
    RedeemPlays(s, user, machine, plays);
  }

  lemma RedeemPlays(s: System, user: nat, machine: nat, plays: seq<Play>)
    requires Inv(s, plays)
    ensures
      var t := Run(s, Redemption.Redeem(s.db, user, machine));
      && t.db.users == s.db.users && t.history.heirs == s.history.heirs
      && AllCarried(Redemptions(t.db.pulses), plays + Made(s, Step.Redeem(user, machine)), t.history.heirs)
  {
    Redemption.RedeemIsAtomic(s.db, user, machine);
    if Made(s, Step.Redeem(user, machine)) != [] {
      var pulse := Pulse(machine, Some(user), TokenRedemption, Pending, 0, None);
      OneMore(s.db.pulses, plays, s.history.heirs, pulse, Play(user, machine));
    } else {
      assert plays + [] == plays;
    }
  }

  lemma MergeKeeps(s: System, from: nat, to: nat, plays: seq<Play>)
    requires Inv(s, plays)
    ensures Inv(ApplyMerge(s, from, to), plays)
  {
    References.RefsKeptByMerge(s, from, to);
    var t := ApplyMerge(s, from, to);
    if t != s {
      RedemptionsRenamed(s.db.pulses, t.db.pulses, from, to);
      forall i | 0 <= i < |plays|
        ensures Carries(Redemptions(t.db.pulses)[i], plays[i], t.history.heirs)
      {
        assert Carries(Redemptions(s.db.pulses)[i], plays[i], s.history.heirs);
      }
    }
  }

  lemma HookKeeps(s: System, c: nat, written: bool, plays: seq<Play>)
    requires Inv(s, plays) && c in s.calls && s.calls[c].Planned?
    ensures Inv(ApplyHook(s, c, written), plays)
  {
    References.RefsKeptByHook(s, c, written);
    var call := s.calls[c];
    References.HookFrame(s.db, call.deposit, call.plan);
    DirectPulsesDoNotCount(s.db.pulses, References.NewPulses(s.db, call.deposit, call.plan));
  }

  lemma DispatchKeeps(s: System, step: Step, plays: seq<Play>)
    requires Inv(s, plays) && Enabled(s, step) && References.DispatchStep(step)
    ensures Inv(Apply(s, step), plays)
  {
    References.RefsKept(s, step);
    References.DispatchFrame(s, step);
    RedemptionsRenamed(s.db.pulses, Apply(s, step).db.pulses, 0, 0);
    PlaysStay(s, Apply(s, step), plays);
  }

  lemma PlaysStay(s: System, t: System, plays: seq<Play>)
    requires Inv(s, plays) && t.history.heirs == s.history.heirs
    requires |Redemptions(t.db.pulses)| == |Redemptions(s.db.pulses)|
    requires forall i | 0 <= i < |Redemptions(s.db.pulses)| ::
               Redemptions(t.db.pulses)[i].machine == Redemptions(s.db.pulses)[i].machine
               && Redemptions(t.db.pulses)[i].user == Redemptions(s.db.pulses)[i].user
    ensures AllCarried(Redemptions(t.db.pulses), plays, t.history.heirs)
  {
    forall i | 0 <= i < |plays|
      ensures Carries(Redemptions(t.db.pulses)[i], plays[i], t.history.heirs)
    {
      assert Carries(Redemptions(s.db.pulses)[i], plays[i], s.history.heirs);
    }
  }

  lemma AccountsKeep(s: System, step: Step, plays: seq<Play>)
    requires Inv(s, plays) && Enabled(s, step) && (step.CreateUser? || step.Adjust?)
    ensures Inv(Apply(s, step), plays)
  {
    References.RefsKept(s, step);
    var t := Apply(s, step);
    assert t.db.pulses == s.db.pulses;
    forall i | 0 <= i < |plays|
      ensures Carries(Redemptions(t.db.pulses)[i], plays[i], t.history.heirs)
    {
      assert Carries(Redemptions(s.db.pulses)[i], plays[i], s.history.heirs);
    }
  }

  lemma InvKept(s: System, step: Step, plays: seq<Play>)
    requires Inv(s, plays) && Enabled(s, step)
    ensures Inv(Apply(s, step), plays + Made(s, step))
  {
    assert plays + [] == plays;
    if step.Redeem? {
      RedeemKeeps(s, step.user, step.machine, plays);
    } else if step.Merge? {
      MergeKeeps(s, step.from, step.to, plays);
    } else if step.RunHook? {
      HookKeeps(s, step.call, step.written, plays);
    } else if References.DispatchStep(step) {
      DispatchKeeps(s, step, plays);
    } else if step.CreateUser? || step.Adjust? {
      AccountsKeep(s, step, plays);
    } else {
      References.RefsKept(s, step);
      References.BooksFrame(s, step);
    }
  }

  lemma {:induction false} FirstMade(s: System, steps: seq<Step>, plays: seq<Play>)
    requires Allowed(s, steps) && steps != []
    ensures plays + AllMade(s, steps) == (plays + Made(s, steps[0])) + AllMade(Apply(s, steps[0]), steps[1..])
  {
  }

  lemma {:induction false} InvAlways(s: System, steps: seq<Step>, plays: seq<Play>)
    requires Inv(s, plays) && Allowed(s, steps)
    ensures Inv(Exec(s, steps), plays + AllMade(s, steps))
    decreases |steps|
  {
    if steps == [] {
      assert plays + [] == plays;
    } else {
      InvKept(s, steps[0], plays);
      InvAlways(Apply(s, steps[0]), steps[1..], plays + Made(s, steps[0]));
      FirstMade(s, steps, plays);
    }
  }

  /**
   Over every run, merges and crashes included: the queue's redemption pulses, in order, are the
   redemptions that went through, no more and no fewer, each at the machine it was made for and
   for the account that the redeemer is merged into by now.
   */
  lemma {:induction false} RedemptionsPlayWhereAsked(steps: seq<Step>)
    requires Allowed(INITIAL, steps)
    ensures
      var s := Exec(INITIAL, steps);
      AllCarried(Redemptions(s.db.pulses), AllMade(INITIAL, steps), s.history.heirs)
  {
    References.RefsKept(INITIAL, CreateUser(0));
    InvAlways(INITIAL, steps, []);
    assert [] + AllMade(INITIAL, steps) == AllMade(INITIAL, steps);
  }
}
