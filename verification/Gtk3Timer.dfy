/**
 The status timer of the GTK 3 window. There, stopping the timer only clears its flag; the
 source GTK holds for it goes when it next fires and finds nothing to poll.
 */
module Gtk3Timer {

  /** The flag, and the timeout sources GTK holds. */
  datatype Timer = Timer(running: bool, sources: nat)

  /** A start in or out of direct mode, a stop, and a source firing with or without something to poll. */
  datatype Op = Start(direct: bool) | Stop | Tick(polls: bool)

  function Step(t: Timer, op: Op): Timer {
    match op
    case Start(direct) => if direct && !t.running then Timer(true, t.sources + 1) else t
    case Stop => Timer(false, t.sources)
    case Tick(polls) => if t.sources > 0 && (!polls || !t.running) then Timer(false, t.sources - 1) else t
  }

  /** Only a start in direct mode adds a source or sets the flag; a tick ends its source with nothing to poll. */
  lemma StepEffects(t: Timer, op: Op)
    ensures var u, starts, ends := Step(t, op), op == Start(true) && !t.running,
                                   op.Tick? && t.sources > 0 && (!op.polls || !t.running);
            && (u.sources == t.sources + 1 <==> starts)
            && (u.sources == t.sources - 1 <==> ends)
            && (u.running <==> op == Start(true) || (t.running && op != Stop && !ends))
  {
  }

  function Run(ops: seq<Op>): Timer {
    if ops == [] then Timer(false, 0) else Step(Run(ops[..|ops| - 1]), ops[|ops| - 1])
  }

  lemma RunSnoc(ops: seq<Op>, op: Op)
    ensures Run(ops + [op]) == Step(Run(ops), op)
  {
    assert (ops + [op])[..|ops|] == ops;
  }

  /** What the status timer promises: never more than one source, and one whenever the flag is set. */
  predicate OneSource(t: Timer) {
    t.sources <= 1 && (t.running ==> t.sources == 1)
  }

  predicate AlwaysOneSource(ops: seq<Op>) {
    forall n :: 0 <= n <= |ops| ==> OneSource(Run(ops[..n]))
  }

  /** The timer was stopped while it ran, and no tick has come since. */
  predicate StoppedUnticked(ops: seq<Op>) {
    exists i :: 0 <= i < |ops| && StopsAt(ops, i) && !TickWithin(ops, i + 1, |ops|)
  }

  predicate StopsAt(ops: seq<Op>, i: nat)
    requires i < |ops|
  {
    ops[i] == Stop && Run(ops[..i]).running
  }

  predicate TickWithin(ops: seq<Op>, lo: nat, hi: nat)
    requires hi <= |ops|
  {
    exists j :: lo <= j < hi && ops[j].Tick?
  }

  /** Every stop of a running timer is followed by a tick before the next start in direct mode. */
  predicate Patient(ops: seq<Op>) {
    forall k :: 0 <= k < |ops| && ops[k] == Start(true) ==> !StoppedUnticked(ops[..k])
  }

  /** One operation more keeps what is known of the earlier ones. */
  lemma StoppedUntickedStep(ops: seq<Op>, op: Op)
    ensures StoppedUnticked(ops + [op]) <==>
            !op.Tick? && (StoppedUnticked(ops) || (op == Stop && Run(ops).running))
  {
    var more := ops + [op];
    assert more[..|ops|] == ops;
    forall i | 0 <= i < |ops|
      ensures StopsAt(more, i) <==> StopsAt(ops, i)
      ensures TickWithin(more, i + 1, |more|) <==> op.Tick? || TickWithin(ops, i + 1, |ops|)
    {
      assert more[..i] == ops[..i];
      if op.Tick? {
        assert more[|ops|].Tick?;
      }
      if TickWithin(ops, i + 1, |ops|) {
        var j :| i + 1 <= j < |ops| && ops[j].Tick?;
        assert more[j].Tick?;
      }
    }
    if op == Stop && Run(ops).running {
      assert StopsAt(more, |ops|) && !TickWithin(more, |ops| + 1, |more|);
    }
    if StoppedUnticked(ops) && !op.Tick? {
      var i :| 0 <= i < |ops| && StopsAt(ops, i) && !TickWithin(ops, i + 1, |ops|);
      assert StopsAt(more, i) && !TickWithin(more, i + 1, |more|);
    }
  }

  lemma AlwaysStep(ops: seq<Op>, op: Op)
    ensures AlwaysOneSource(ops + [op]) <==> AlwaysOneSource(ops) && OneSource(Run(ops + [op]))
    ensures Patient(ops + [op]) <==> Patient(ops) && (op == Start(true) ==> !StoppedUnticked(ops))
  {
    var more := ops + [op];
    assert more[..|more|] == more && more[..|ops|] == ops;
    assert forall n :: 0 <= n <= |ops| ==> more[..n] == ops[..n];
    assert forall k :: 0 <= k < |ops| ==> more[k] == ops[k];
    assert more[|ops|] == op;
  }

  /**
   While the promise holds, the source of a stopped timer is still there exactly when no
   tick has come since the stop.
   */
  lemma {:induction false} LeftOver(ops: seq<Op>)
    requires AlwaysOneSource(ops)
    ensures StoppedUnticked(ops) <==> !Run(ops).running && Run(ops).sources == 1
    decreases |ops|
  {
    if ops != [] {
      var before, op := ops[..|ops| - 1], ops[|ops| - 1];
      assert ops == before + [op];
      AlwaysStep(before, op);
      LeftOver(before);
      StoppedUntickedStep(before, op);
      RunSnoc(before, op);
      assert ops[..|ops| - 1] == before && OneSource(Run(before));
    }
  }

  /**
   Over every sequence of starts, stops and ticks: there is never more than one source, and
   one whenever the flag is set, if and only if every stop of a running timer is followed by
   a tick before the next start in direct mode.
   */
  lemma {:induction false} OneSourceExactly(ops: seq<Op>)
    ensures AlwaysOneSource(ops) <==> Patient(ops)
    decreases |ops|
  {
    if ops == [] {
      assert Run(ops[..0]) == Timer(false, 0);
    } else {
      var before, op := ops[..|ops| - 1], ops[|ops| - 1];
      assert ops == before + [op];
      AlwaysStep(before, op);
      OneSourceExactly(before);
      RunSnoc(before, op);
      if AlwaysOneSource(before) {
        LeftOver(before);
        assert before[..|before|] == before && OneSource(Run(before));
      }
    }
  }

  /** Start, and then stop and start again any number of times. */
  function Restarts(times: nat): seq<Op> {
    if times == 0 then [Start(true)] else Restarts(times - 1) + [Stop] + [Start(true)]
  }

  /** Without a tick in between, each restart leaves one source more. */
  lemma {:induction false} RestartsPileUp(times: nat)
    ensures Run(Restarts(times)) == Timer(true, times + 1)
  {
    if times == 0 {
      RunSnoc([], Start(true));
      assert [] + [Start(true)] == [Start(true)];
    } else {
      RestartsPileUp(times - 1);
      RunSnoc(Restarts(times - 1), Stop);
      RunSnoc(Restarts(times - 1) + [Stop], Start(true));
    }
  }

  /** Once stopped, as many ticks as there are sources remove them all, without polling. */
  lemma {:induction false} StoppedSourcesDrain(ops: seq<Op>, ticks: seq<Op>)
    requires !Run(ops).running && |ticks| == Run(ops).sources
    requires forall k :: 0 <= k < |ticks| ==> ticks[k].Tick?
    ensures Run(ops + ticks) == Timer(false, 0)
    decreases |ticks|
  {
    if ticks == [] {
      assert ops + ticks == ops;
    } else {
      RunSnoc(ops, ticks[0]);
      StoppedSourcesDrain(ops + [ticks[0]], ticks[1..]);
      assert ops + ticks == ops + [ticks[0]] + ticks[1..];
    }
  }
}
