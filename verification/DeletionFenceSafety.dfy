/** The fence over whole runs: epochs, the one owner, and operations that lost it. */
module DeletionFenceSafety {
  import opened Text
  import opened PlacementDirectory
  import opened DeletionFence
  import opened DeletionFenceInvariant

  // ---- What every run keeps ----

  function Writes(log: seq<Write>, key: string): nat {
    if log == [] then 0 else Writes(log[..|log| - 1], key) + if log[|log| - 1].key == key then 1 else 0
  }

  function EpochOf(records: Records, key: string): int {
    if key in records then records[key].epoch else 0
  }

  /** Each write of an identity, and nothing else, takes its epoch exactly one further. */
  lemma {:induction false} EpochsCountWrites(first: Records, actions: seq<Action>, key: string)
    ensures EpochOf(Run(first, actions).records, key) == EpochOf(first, key) + Writes(Run(first, actions).log, key)
  {
    if actions != [] {
      var front, a := actions[..|actions| - 1], actions[|actions| - 1];
      EpochsCountWrites(first, front, key);
      RunKeepsInv(first, front);
      assert Run(first, actions) == Step(Run(first, front), a);
      StepCounts(Run(first, front), a, key);
    }
  }

  lemma {:induction false} StepCounts(s: State, a: Action, key: string)
    requires Inv(s)
    ensures
      var t := Step(s, a);
      EpochOf(t.records, key) - EpochOf(s.records, key) == Writes(t.log, key) - Writes(s.log, key)
  {
    var t := Step(s, a);
    StepMoves(s, a);
    StepKeepsInv(s, a);
    hide Step, OpsOk;
    if t.log != s.log {
      var w := t.log[|s.log|];
      assert WriteOk(t, w);
      hide Inv;
      WriteCounts(s, t, w, key);
    }
  }

  lemma {:induction false} WriteCounts(s: State, t: State, w: Write, key: string)
    requires t.log == s.log + [w] && t.records == s.records[w.key := w.after]
    requires w.before == if w.key in s.records then Some(s.records[w.key]) else None
    requires WriteOk(t, w)
    ensures EpochOf(t.records, key) - EpochOf(s.records, key) == Writes(t.log, key) - Writes(s.log, key)
  {
    hide Past;
    assert t.log[..|t.log| - 1] == s.log;
  }

  /** A step of this operation moves it, and writes nothing or one record. */
  predicate Moves(s: State, t: State, i: nat) {
    && s.first == t.first && i in t.ops && t.ops == s.ops[i := t.ops[i]]
    && ((t.log == s.log && t.records == s.records)
        || (|t.log| == |s.log| + 1
            && var w := t.log[|s.log|];
               && t.log == s.log + [w] && w.op == i && t.records == s.records[w.key := w.after]
               && Valid(w.key, w.after)
               && w.before == if w.key in s.records then Some(s.records[w.key]) else None))
  }

  lemma SwapMoves(s: State, i: nat, key: string, epoch: int, phase: Phase, next: Placement, won: Op, lost: Op)
    ensures Moves(s, Attempt(s, i, key, Swap(s.records, key, epoch, phase, next), next, won, lost), i)
  {
  }

  lemma PutMoves(s: State, i: nat, key: string, next: Placement, op: Op)
    ensures Moves(s, Attempt(s, i, key, Put(s.records, key, next), next, op, op), i)
  {
  }

  lemma AdvanceMoves(s: State, i: nat, luck: Luck)
    requires i in s.ops
    ensures Moves(s, AdvanceOp(s, i, luck), i)
  {
    hide Next, Fenced, Released, Moved, Settled, Swap, Put, Attempt, Moves;
    match s.ops[i]
    case Fencing(key, read) =>
      SwapMoves(s, i, key, read.epoch, Active, Fenced(read), Owned(key, read.epoch + 1), Lost(key));
    case ReleaseRead(key, epoch, to, read) =>
      SwapMoves(s, i, key, read.epoch, Deleting, Released(read, to),
                   Ended(key, Done(to)), Ended(key, Refused(to)));
    case MoveRead(key, source, target, read) =>
      var moving := Moved(read, source, target);
      SwapMoves(s, i, key, read.epoch, Active, moving,
                   MoveFenced(key, source, target, moving), Ended(key, Other));
    case MoveFenced(key, source, target, moving) =>
      if luck.Succeeds? {
        var active := Settled(moving, target, source);
        SwapMoves(s, i, key, moving.epoch, Moving, active, Ended(key, Other), Ended(key, Other));
      } else {
        ToMoves(s, i, Next(s, s.ops[i], luck));
      }
    case MoveBack(key, source, target, moving) =>
      var active := Settled(moving, source, target);
      SwapMoves(s, i, key, moving.epoch, Moving, active, Ended(key, Other), Ended(key, Other));
    case TombstoneRead(key, read) =>
      var next := Released(read, Tombstoned);
      SwapMoves(s, i, key, read.epoch, read.phase, next, Ended(key, Other), Ended(key, Other));
    case Claim(key, region) =>
      var next := Placement(region, 1, Active, None, None);
      PutMoves(s, i, key, next, Ended(key, Other));
    case op => ToMoves(s, i, Next(s, op, luck));
  }

  lemma ToMoves(s: State, i: nat, op: Op)
    ensures Moves(s, To(s, i, op), i)
  {
  }

  /** Every step is one of a single operation, or nothing at all. */
  lemma StepMoves(s: State, a: Action)
    ensures Step(s, a) == s || Moves(s, Step(s, a), a.op)
    ensures a.Arrive? ==> Step(s, a).records == s.records && Step(s, a).log == s.log && (a.op in s.ops ==> Step(s, a) == s)
  {
    hide AdvanceOp;
    if a.Advance? && a.op in s.ops {
      AdvanceMoves(s, a.op, a.luck);
    }
  }

  /** A fence has one owner: no other operation stored the same key and epoch. */
  lemma OneOwner(first: Records, actions: seq<Action>, key: string, epoch: int, i: nat, j: nat)
    requires FencedBy(Run(first, actions).log, key, epoch, i) && FencedBy(Run(first, actions).log, key, epoch, j)
    ensures i == j
  {
    hide Run, OpsOk;
    RunKeepsInv(first, actions);
    var log := Run(first, actions).log;
    var k :| 0 <= k < |log| && log[k].op == i && log[k].key == key && log[k].after.epoch == epoch && log[k].after.phase == Deleting;
    var l :| 0 <= l < |log| && log[l].op == j && log[l].key == key && log[l].after.epoch == epoch && log[l].after.phase == Deleting;
  }

  /**
   * A fenced placement changes only by a tombstone, which asks for no ownership, or by the deletion
   * that stored this very fence, which tombstones it or gives it back as it was, one epoch on.
   */
  lemma OnlyTheOwnerReleases(first: Records, actions: seq<Action>, a: Action, key: string)
    requires
      var s := Run(first, actions);
      key in s.records && s.records[key].phase == Deleting
      && (key in Step(s, a).records ==> Step(s, a).records[key] != s.records[key])
    ensures
      var s := Run(first, actions);
      var t := Step(s, a);
      && key in t.records && a.Advance? && a.op in s.ops
      && (|| (s.ops[a.op].TombstoneRead? && t.records[key] == Released(s.records[key], Tombstoned))
          || (s.ops[a.op].ReleaseRead? && FencedBy(s.log, key, s.records[key].epoch, a.op)
              && (s.ops[a.op].to == Active || s.ops[a.op].to == Tombstoned)
              && t.records[key] == Released(s.records[key], s.ops[a.op].to)))
  {
    var s := Run(first, actions);
    RunKeepsInv(first, actions);
    hide Run, FencedBy, NoWrite, LogOk, AdvanceOp;
    StepMoves(s, a);
    assert OpOk(s, a.op, s.ops[a.op]);
    hide OpsOk;
    ReleaseBy(s, a.op, a.luck, key);
  }

  lemma ReleaseBy(s: State, i: nat, luck: Luck, key: string)
    requires Inv(s) && i in s.ops && OpOk(s, i, s.ops[i]) && key in s.records && s.records[key].phase == Deleting
    requires key in AdvanceOp(s, i, luck).records && AdvanceOp(s, i, luck).records[key] != s.records[key]
    ensures
      var t := AdvanceOp(s, i, luck);
      || (s.ops[i].TombstoneRead? && t.records[key] == Released(s.records[key], Tombstoned))
      || (s.ops[i].ReleaseRead? && FencedBy(s.log, key, s.records[key].epoch, i)
          && t.records[key] == Released(s.records[key], s.ops[i].to))
  {
    hide Inv, FencedBy, NoWrite, Released, Fenced, Settled, Moved, Valid, Next;
  }

  lemma StepValid(s: State, a: Action)
    requires ValidRecords(s.records)
    ensures ValidRecords(Step(s, a).records)
  {
    StepMoves(s, a);
    hide Step, Valid;
  }

  /** A directory of valid records holds valid records in every run. */
  lemma {:induction false} RecordsStayValid(first: Records, actions: seq<Action>)
    requires ValidRecords(first)
    ensures ValidRecords(Run(first, actions).records)
  {
    hide Step, ValidRecords;
    if actions != [] {
      RecordsStayValid(first, actions[..|actions| - 1]);
      StepValid(Run(first, actions[..|actions| - 1]), actions[|actions| - 1]);
    }
  }

  /** Three steps of a tombstone, with no one else in between. */
  function AfterTombstone(s: State, j: nat, key: string): State {
    Step(Step(Step(s, Arrive(j, Op.Tombstone(key))), Advance(j, Succeeds)), Advance(j, Succeeds))
  }

  lemma TombstoneRuns(s: State, j: nat, key: string)
    requires j !in s.ops && key in s.records && s.records[key].phase != Tombstoned
    requires Valid(key, Released(s.records[key], Tombstoned))
    ensures AfterTombstone(s, j, key).records == s.records[key := Released(s.records[key], Tombstoned)]
    ensures forall i :: i in s.ops ==> i in AfterTombstone(s, j, key).ops && AfterTombstone(s, j, key).ops[i] == s.ops[i]
  {
    var next := Released(s.records[key], Tombstoned);
    var t1 := To(s, j, Op.Tombstone(key));
    var t2 := To(t1, j, TombstoneRead(key, s.records[key]));
    assert Step(s, Arrive(j, Op.Tombstone(key))) == t1;
    assert Step(t1, Advance(j, Succeeds)) == t2;
    hide Released, Valid, Next;
    assert Swap(t2.records, key, s.records[key].epoch, s.records[key].phase, next) == Some(s.records[key := next]);
    assert t2.ops[j] == TombstoneRead(key, s.records[key]);
  }

  /** An operation that has not arrived has not stored a fence. */
  lemma NotArrived(s: State, key: string, epoch: int, j: nat)
    requires LogOk(s) && j !in s.ops
    ensures !FencedBy(s.log, key, epoch, j)
  {
    assert forall k :: 0 <= k < |s.log| ==> WriteOk(s, s.log[k]) && s.log[k].op in s.ops;
  }

  /**
   * In any reachable state a tombstone that has only just arrived takes a standing fence away, and
   * leaves the deletion that owns it with a fence that no longer stands.
   */
  lemma TombstoneOverridesFence(first: Records, actions: seq<Action>, i: nat, j: nat)
    requires ValidRecords(first)
    requires
      var s := Run(first, actions);
      && i in s.ops && s.ops[i].Owned? && Held(s.records, s.ops[i].key, s.ops[i].epoch) && s.ops[i].epoch < MAX_SAFE_INTEGER
      && j !in s.ops
    ensures
      var s := Run(first, actions);
      var key := s.ops[i].key;
      var t := AfterTombstone(s, j, key);
      && t.records == s.records[key := Released(s.records[key], Tombstoned)]
      && !FencedBy(s.log, key, s.ops[i].epoch, j)
      && i in t.ops && t.ops[i] == s.ops[i] && Stale(t, i)
  {
    var s := Run(first, actions);
    RecordsStayValid(first, actions);
    RunKeepsInv(first, actions);
    var key := s.ops[i].key;
    NotArrived(s, key, s.ops[i].epoch, j);
    hide Run, OpsOk, LogOk, FencedBy, AfterTombstone;
    assert Valid(key, s.records[key]);
    TombstoneRuns(s, j, key);
  }

  // ---- Losers and stale epochs ----

  /** The operation lost the race for the fence, or never found one to take. */
  predicate LostFence(s: State, i: nat) {
    i in s.ops && (s.ops[i].Lost? || (s.ops[i].Ended? && s.ops[i].outcome == NotFenced))
  }

  /** The deletion has gone past a fence that no longer stands, or has ended. */
  predicate Stale(s: State, i: nat) {
    i in s.ops &&
    match s.ops[i]
    case Owned(key, epoch) => !Held(s.records, key, epoch)
    case Releasing(key, epoch, _) => !Held(s.records, key, epoch)
    case ReleaseRead(key, epoch, _, _) => !Held(s.records, key, epoch)
    case Lost(_) => true
    case Ended(_, _) => true
    case _ => false
  }

  /** The fence of an owner is that of a past epoch, or it stands. */
  lemma OwnedOrPast(s: State, key: string, epoch: int, i: nat)
    requires LogOk(s) && FencedBy(s.log, key, epoch, i)
    ensures key in s.records && epoch <= s.records[key].epoch
    ensures Held(s.records, key, epoch) <==> epoch == s.records[key].epoch
  {
    var k :| 0 <= k < |s.log| && s.log[k].op == i && s.log[k].key == key && s.log[k].after.epoch == epoch && s.log[k].after.phase == Deleting;
    assert WriteOk(s, s.log[k]);
  }

  lemma StaleStepWritesNothing(s: State, a: Action, i: nat)
    requires Inv(s) && Stale(s, i)
    ensures Stale(Step(s, a), i)
    ensures a.op == i ==> Step(s, a).records == s.records && Step(s, a).log == s.log
    ensures LostFence(s, i) ==> LostFence(Step(s, a), i)
  {
    assert OpOk(s, i, s.ops[i]);
    hide OpsOk, LogOk, NoWrite, FencedBy, AdvanceOp;
    StepMoves(s, a);
    if a.Advance? && a.op == i {
      StaleAdvances(s, i, a.luck);
    } else if Step(s, a) != s {
      var t := Step(s, a);
      hide Step;
      assert LogOk(t) by { StepKeepsInv(s, a); }
      StaleStays(s, t, i);
    }
  }

  lemma StaleAdvances(s: State, i: nat, luck: Luck)
    requires Stale(s, i) && OpOk(s, i, s.ops[i])
    ensures
      var t := AdvanceOp(s, i, luck);
      t.records == s.records && t.log == s.log && Stale(t, i) && (LostFence(s, i) ==> LostFence(t, i))
  {
    hide NoWrite, FencedBy, Fenced, Settled, Moved, Valid;
  }

  lemma StaleStays(s: State, t: State, i: nat)
    requires LogOk(s) && Stale(s, i) && OpOk(s, i, s.ops[i]) && i in t.ops && t.ops[i] == s.ops[i]
    requires forall key :: key in s.records ==> key in t.records && s.records[key].epoch <= t.records[key].epoch
    requires forall key :: key in s.records && s.records[key].epoch == t.records[key].epoch ==> s.records[key] == t.records[key]
    ensures Stale(t, i)
  {
    hide LogOk, FencedBy, Past;
    match s.ops[i]
    case Owned(key, epoch) => OwnedOrPast(s, key, epoch, i);
    case Releasing(key, epoch, _) => OwnedOrPast(s, key, epoch, i);
    case ReleaseRead(key, epoch, _, _) => OwnedOrPast(s, key, epoch, i);
    case _ =>
  }

  lemma {:induction false} RunsCompose(first: Records, before: seq<Action>, after: seq<Action>)
    ensures RunFrom(Run(first, before), after) == Run(first, before + after)
  {
    hide Step;
    if after == [] {
      assert before + after == before;
    } else {
      RunsCompose(first, before, after[..|after| - 1]);
      assert (before + after)[..|before + after| - 1] == before + after[..|after| - 1];
    }
  }

  /** The log since the earlier state holds no write of the operation. */
  predicate QuietSince(s: State, t: State, i: nat) {
    s.log <= t.log && forall k :: |s.log| <= k < |t.log| ==> t.log[k].op != i
  }

  /** From the time an operation's fence is gone, nothing it does, in whatever company, is written. */
  lemma {:induction false} StaleNeverWrites(first: Records, before: seq<Action>, after: seq<Action>, i: nat)
    requires Stale(Run(first, before), i)
    ensures
      var s := Run(first, before);
      var t := RunFrom(s, after);
      QuietSince(s, t, i) && Stale(t, i) && (LostFence(s, i) ==> LostFence(t, i))
  {
    var s := Run(first, before);
    hide Run, Step, Stale, LostFence;
    if after != [] {
      var front, a := after[..|after| - 1], after[|after| - 1];
      StaleNeverWrites(first, before, front, i);
      var u := RunFrom(s, front);
      RunsCompose(first, before, front);
      RunKeepsInv(first, before + front);
      hide Inv;
      StaleStepWritesNothing(u, a, i);
      StepMoves(u, a);
    }
  }

  /** A deletion that lost the fence never writes: not before, not in its failure hook, not after. */
  lemma {:induction false} LoserWritesNothing(first: Records, before: seq<Action>, after: seq<Action>, i: nat)
    requires LostFence(Run(first, before), i)
    ensures NoWrite(RunFrom(Run(first, before), after).log, i)
  {
    StaleNeverWrites(first, before, after, i);
    RunsCompose(first, before, after);
    RunKeepsInv(first, before + after);
    var t := Run(first, before + after);
    hide Run, RunFrom;
    assert OpOk(t, i, t.ops[i]);
  }

  /** What stood in the directory once is still there as long as the epoch is the same. */
  lemma {:induction false} EpochNamesPlacement(first: Records, before: seq<Action>, after: seq<Action>, key: string)
    requires key in Run(first, before).records
    ensures Past(RunFrom(Run(first, before), after), key, Run(first, before).records[key])
  {
    hide Run, Step;
    if after != [] {
      var front, a := after[..|after| - 1], after[|after| - 1];
      EpochNamesPlacement(first, before, front, key);
      RunsCompose(first, before, front);
      RunKeepsInv(first, before + front);
      var u := RunFrom(Run(first, before), front);
      StepMoves(u, a);
      StepKeepsInv(u, a);
      hide OpsOk, RunFrom;
      if |Step(u, a).log| == |u.log| + 1 {
        assert WriteOk(Step(u, a), Step(u, a).log[|u.log|]);
      }
    }
  }

  /** The compare-and-set over a store that can only compare whole records with one read earlier. */
  function TextSwap(records: Records, key: string, read: Placement, next: Placement): Option<Records> {
    if Valid(key, next) && key in records && records[key] == read then Some(records[key := next]) else None
  }

  /** However many steps pass between its read and its write, it does what the atomic one does. */
  lemma {:induction false} StoreBackedIsAtomic(first: Records, before: seq<Action>, after: seq<Action>, key: string, next: Placement)
    requires key in Run(first, before).records
    ensures
      var read := Run(first, before).records[key];
      var now := RunFrom(Run(first, before), after).records;
      TextSwap(now, key, read, next) == Swap(now, key, read.epoch, read.phase, next)
  {
    EpochNamesPlacement(first, before, after, key);
  }

  /** An owner whose fence stands and who is let run releases it, unless the epochs have run out. */
  lemma OwnerReleases(first: Records, actions: seq<Action>, i: nat)
    requires
      var s := Run(first, actions);
      i in s.ops && s.ops[i].Releasing? && Held(s.records, s.ops[i].key, s.ops[i].epoch)
      && Valid(s.ops[i].key, s.records[s.ops[i].key])
    ensures
      var s := Run(first, actions);
      var op := s.ops[i];
      var t := Step(Step(s, Advance(i, Succeeds)), Advance(i, Succeeds));
      if op.epoch < MAX_SAFE_INTEGER then
        t.records == s.records[op.key := Released(s.records[op.key], op.to)] && t.ops[i] == Ended(op.key, Done(op.to))
      else t.records == s.records && t.ops[i] == Ended(op.key, Refused(op.to))
  {
    var s := Run(first, actions);
    hide Run;
    var u := Step(s, Advance(i, Succeeds));
    assert u.ops[i] == ReleaseRead(s.ops[i].key, s.ops[i].epoch, s.ops[i].to, s.records[s.ops[i].key]);
  }
}
