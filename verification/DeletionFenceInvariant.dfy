/** What every reachable state of the placement machine satisfies, and that each step keeps it. */
module DeletionFenceInvariant {
  import opened Text
  import opened PlacementDirectory
  import opened DeletionFence

  // ---- The inductive invariant ----

  /** The placement is one that the directory has held, and holds if the epoch has not moved on. */
  predicate Past(s: State, key: string, p: Placement) {
    key in s.records && p.epoch <= s.records[key].epoch && (p.epoch == s.records[key].epoch ==> p == s.records[key])
  }

  /** A write takes the epoch one further; a claim starts it. */
  predicate WriteOk(s: State, w: Write) {
    && Past(s, w.key, w.after) && w.op in s.ops
    && (w.key in s.first ==> s.first[w.key].epoch < w.after.epoch)
    && w.after.epoch == (if w.before.Some? then w.before.value.epoch else 0) + 1
  }

  predicate LogOk(s: State) {
    && (forall key :: key in s.first ==> Past(s, key, s.first[key]))
    && (forall k :: 0 <= k < |s.log| ==> WriteOk(s, s.log[k]))
    && (forall j, k :: 0 <= j < k < |s.log| && s.log[j].key == s.log[k].key ==> s.log[j].after.epoch < s.log[k].after.epoch)
  }

  /** The operation stored the fence of this key with this epoch. */
  ghost predicate FencedBy(log: seq<Write>, key: string, epoch: int, i: nat) {
    exists k :: 0 <= k < |log| && log[k].op == i && log[k].key == key && log[k].after.epoch == epoch && log[k].after.phase == Deleting
  }

  predicate NoWrite(log: seq<Write>, i: nat) {
    forall k :: 0 <= k < |log| ==> log[k].op != i
  }

  /** What an operation knows when it is at a point. */
  ghost predicate OpOk(s: State, i: nat, op: Op) {
    match op
    case Delete(_) => NoWrite(s.log, i)
    case Fencing(key, read) => Past(s, key, read) && read.phase == Active && NoWrite(s.log, i)
    case Lost(_) => NoWrite(s.log, i)
    case Owned(key, epoch) => FencedBy(s.log, key, epoch, i)
    case Releasing(key, epoch, to) => FencedBy(s.log, key, epoch, i) && (to == Active || to == Tombstoned)
    case ReleaseRead(key, epoch, to, read) =>
      FencedBy(s.log, key, epoch, i) && Past(s, key, read) && read.epoch == epoch && (to == Active || to == Tombstoned)
    case MoveRead(key, _, _, read) => Past(s, key, read) && read.phase == Active
    case MoveFenced(key, _, _, moving) => Past(s, key, moving) && moving.phase == Moving
    case MoveBack(key, _, _, moving) => Past(s, key, moving) && moving.phase == Moving
    case TombstoneRead(key, read) => Past(s, key, read)
    case Ended(_, outcome) => outcome == NotFenced ==> NoWrite(s.log, i)
    case _ => true
  }

  ghost predicate OpsOk(s: State) {
    forall i :: i in s.ops ==> OpOk(s, i, s.ops[i])
  }

  ghost predicate Inv(s: State) {
    LogOk(s) && OpsOk(s)
  }

  // ---- Preservation ----

  /** Everything an operation knows, except that it has not written, outlives a step of another one. */
  ghost predicate Later(s: State, t: State, i: nat) {
    && s.first == t.first && s.log <= t.log
    && (forall key, p :: Past(s, key, p) ==> Past(t, key, p))
    && (forall key, e, j :: FencedBy(s.log, key, e, j) ==> FencedBy(t.log, key, e, j))
    && (forall j :: j != i && NoWrite(s.log, j) ==> NoWrite(t.log, j))
  }

  lemma LogGrows(log: seq<Write>, w: Write)
    ensures forall key, e, j :: FencedBy(log, key, e, j) ==> FencedBy(log + [w], key, e, j)
    ensures forall j :: j != w.op && NoWrite(log, j) ==> NoWrite(log + [w], j)
    ensures w.after.phase == Deleting ==> FencedBy(log + [w], w.key, w.after.epoch, w.op)
  {
    var more := log + [w];
    assert more[|log|] == w;
    forall key, e, j | FencedBy(log, key, e, j)
      ensures FencedBy(more, key, e, j)
    {
      var k :| 0 <= k < |log| && log[k].op == j && log[k].key == key && log[k].after.epoch == e && log[k].after.phase == Deleting;
      assert more[k] == log[k];
    }
  }

  /** The log stays in order when the next epoch of a key is written. */
  lemma WriteKeepsLog(s: State, i: nat, w: Write, op: Op)
    requires LogOk(s) && i in s.ops && w.op == i
    requires w.before == if w.key in s.records then Some(s.records[w.key]) else None
    requires w.after.epoch == (if w.before.Some? then w.before.value.epoch else 0) + 1
    ensures LogOk(To(s, i, op).(records := s.records[w.key := w.after], log := s.log + [w]))
    ensures Later(s, To(s, i, op).(records := s.records[w.key := w.after], log := s.log + [w]), i)
  {
    hide FencedBy, NoWrite;
    var t := To(s, i, op).(records := s.records[w.key := w.after], log := s.log + [w]);
    LogGrows(s.log, w);
    forall key, p | Past(s, key, p)
      ensures Past(t, key, p)
    {
    }
    forall k | 0 <= k < |t.log|
      ensures WriteOk(t, t.log[k])
    {
      assert k < |s.log| ==> WriteOk(s, s.log[k]);
    }
    forall j, k | 0 <= j < k < |t.log| && t.log[j].key == t.log[k].key
      ensures t.log[j].after.epoch < t.log[k].after.epoch
    {
      assert WriteOk(s, s.log[j]);
    }
  }

  /** What an attempted write leaves behind, whether the directory took it or not. */
  lemma AttemptKeepsLog(s: State, i: nat, key: string, phase: Phase, read: Placement, next: Placement, won: Op, lost: Op)
    requires LogOk(s) && i in s.ops && Past(s, key, read) && next.epoch == read.epoch + 1
    ensures
      var t := Attempt(s, i, key, Swap(s.records, key, read.epoch, phase, next), next, won, lost);
      && LogOk(t) && Later(s, t, i)
      && ((t.ops[i] == lost && t.log == s.log && t.records == s.records)
          || (t.ops[i] == won && Past(t, key, next) && (next.phase == Deleting ==> FencedBy(t.log, key, next.epoch, i))))
  {
    hide FencedBy, NoWrite, LogOk, Later;
    if Swap(s.records, key, read.epoch, phase, next).Some? {
      var w := Write(i, key, Some(read), next);
      WriteKeepsLog(s, i, w, won);
      LogGrows(s.log, w);
    } else {
      QuietKeepsLog(s, i, lost);
    }
  }

  lemma QuietKeepsLog(s: State, i: nat, op: Op)
    requires LogOk(s)
    ensures LogOk(To(s, i, op)) && Later(s, To(s, i, op), i)
  {
    hide FencedBy, NoWrite;
    forall k | 0 <= k < |s.log|
      ensures WriteOk(To(s, i, op), s.log[k])
    {
      assert WriteOk(s, s.log[k]);
    }
  }

  lemma ClaimKeepsLog(s: State, i: nat, key: string, next: Placement, op: Op)
    requires LogOk(s) && i in s.ops && next.epoch == 1
    ensures
      var t := Attempt(s, i, key, Put(s.records, key, next), next, op, op);
      LogOk(t) && Later(s, t, i) && t.ops[i] == op
  {
    hide FencedBy, NoWrite, LogOk, Later;
    if Put(s.records, key, next).Some? {
      WriteKeepsLog(s, i, Write(i, key, None, next), op);
    } else {
      QuietKeepsLog(s, i, op);
    }
  }

  /** What the others know is kept, so it is enough to look at the operation that moved. */
  lemma OthersKept(s: State, t: State, i: nat)
    requires OpsOk(s) && Later(s, t, i) && i in t.ops && OpOk(t, i, t.ops[i])
    requires t.ops == s.ops[i := t.ops[i]]
    ensures OpsOk(t)
  {
    hide FencedBy, NoWrite, Past;
    forall j | j in t.ops
      ensures OpOk(t, j, t.ops[j])
    {
      assert j != i ==> OpOk(s, j, s.ops[j]);
    }
  }

  lemma QuietKeepsInv(s: State, i: nat, op: Op)
    requires Inv(s) && OpOk(s, i, op)
    ensures Inv(To(s, i, op))
  {
    var t := To(s, i, op);
    QuietKeepsLog(s, i, op);
    assert OpOk(t, i, op) by {
      hide FencedBy, NoWrite;
      assert forall key, p :: Past(t, key, p) <==> Past(s, key, p);
    }
    hide LogOk, Later, OpOk;
    OthersKept(s, t, i);
  }

  lemma NextOk(s: State, i: nat, luck: Luck)
    requires Inv(s) && i in s.ops
    ensures OpOk(s, i, Next(s, s.ops[i], luck))
  {
    hide FencedBy, NoWrite, LogOk;
    assert OpOk(s, i, s.ops[i]);
  }

  lemma AttemptKeepsInv(s: State, i: nat, key: string, phase: Phase, read: Placement, next: Placement, won: Op, lost: Op)
    requires Inv(s) && i in s.ops && Past(s, key, read) && next.epoch == read.epoch + 1
    requires (won == Owned(key, next.epoch) && next.phase == Deleting && lost == Lost(key) && NoWrite(s.log, i))
             || (won.Ended? && lost.Ended? && won.outcome != NotFenced && lost.outcome != NotFenced)
             || (won.MoveFenced? && won.key == key && won.moving == next && next.phase == Moving && lost == Ended(key, Other))
    ensures Inv(Attempt(s, i, key, Swap(s.records, key, read.epoch, phase, next), next, won, lost))
  {
    var t := Attempt(s, i, key, Swap(s.records, key, read.epoch, phase, next), next, won, lost);
    hide LogOk, Later, FencedBy, NoWrite, Past, Swap;
    AttemptKeepsLog(s, i, key, phase, read, next, won, lost);
    OthersKept(s, t, i);
  }

  /** The last write of an operation. */
  lemma LastKeepsInv(s: State, i: nat, key: string, phase: Phase, read: Placement, next: Placement, won: Outcome, lost: Outcome)
    requires Inv(s) && i in s.ops && Past(s, key, read) && next.epoch == read.epoch + 1 && won != NotFenced && lost != NotFenced
    ensures Inv(Attempt(s, i, key, Swap(s.records, key, read.epoch, phase, next), next, Ended(key, won), Ended(key, lost)))
  {
    hide Inv, Past;
    AttemptKeepsInv(s, i, key, phase, read, next, Ended(key, won), Ended(key, lost));
  }

  lemma Knows(s: State, i: nat)
    requires Inv(s) && i in s.ops
    ensures OpOk(s, i, s.ops[i])
  {
  }

  lemma QuietAdvanceKeepsInv(s: State, i: nat, luck: Luck)
    requires Inv(s) && i in s.ops
    ensures Inv(To(s, i, Next(s, s.ops[i], luck)))
  {
    hide Inv, Next;
    NextOk(s, i, luck);
    QuietKeepsInv(s, i, Next(s, s.ops[i], luck));
  }

  lemma AdvanceKeepsInv(s: State, i: nat, luck: Luck)
    requires Inv(s) && i in s.ops
    ensures Inv(AdvanceOp(s, i, luck))
  {
    hide Inv, OpsOk, LogOk, FencedBy, NoWrite, Past, Swap, Put, Attempt, Next;
    Knows(s, i);
    match s.ops[i]
    case Fencing(key, read) =>
      AttemptKeepsInv(s, i, key, Active, read, Fenced(read), Owned(key, read.epoch + 1), Lost(key));
    case ReleaseRead(key, epoch, to, read) =>
      LastKeepsInv(s, i, key, Deleting, read, Released(read, to), Done(to), Refused(to));
    case MoveRead(key, source, target, read) =>
      var moving := Moved(read, source, target);
      AttemptKeepsInv(s, i, key, Active, read, moving, MoveFenced(key, source, target, moving), Ended(key, Other));
    case MoveFenced(key, source, target, moving) =>
      if luck.Succeeds? {
        LastKeepsInv(s, i, key, Moving, moving, Settled(moving, target, source), Other, Other);
      } else {
        QuietAdvanceKeepsInv(s, i, luck);
      }
    case MoveBack(key, source, target, moving) =>
      LastKeepsInv(s, i, key, Moving, moving, Settled(moving, source, target), Other, Other);
    case TombstoneRead(key, read) =>
      LastKeepsInv(s, i, key, read.phase, read, Released(read, Tombstoned), Other, Other);
    case Claim(key, region) =>
      ClaimKeepsInv(s, i, key, Placement(region, 1, Active, None, None), Ended(key, Other));
    case _ => QuietAdvanceKeepsInv(s, i, luck);
  }

  lemma ClaimKeepsInv(s: State, i: nat, key: string, next: Placement, op: Op)
    requires Inv(s) && i in s.ops && next.epoch == 1 && op == Ended(key, Other)
    ensures Inv(Attempt(s, i, key, Put(s.records, key, next), next, op, op))
  {
    hide LogOk, Later, FencedBy, NoWrite, Past, Put;
    ClaimKeepsLog(s, i, key, next, op);
    OthersKept(s, Attempt(s, i, key, Put(s.records, key, next), next, op, op), i);
  }

  lemma StepKeepsInv(s: State, a: Action)
    requires Inv(s)
    ensures Inv(Step(s, a))
  {
    match a
    case Arrive(i, op) =>
      if i !in s.ops && Starts(op) {
        assert NoWrite(s.log, i) by {
          assert forall k :: 0 <= k < |s.log| ==> WriteOk(s, s.log[k]);
        }
        QuietKeepsInv(s, i, op);
      }
    case Advance(i, luck) =>
      if i in s.ops {
        hide Inv, AdvanceOp;
        AdvanceKeepsInv(s, i, luck);
      }
  }

  /** Every reachable state satisfies the invariant. */
  lemma {:induction false} RunKeepsInv(first: Records, actions: seq<Action>)
    ensures Inv(Run(first, actions)) && Run(first, actions).first == first
  {
    if actions != [] {
      var front := actions[..|actions| - 1];
      RunKeepsInv(first, front);
      StepKeepsInv(Run(first, front), actions[|actions| - 1]);
    }
  }
}
