/**
 * Account deletions, moves, claims and tombstones on one placement directory. Every call of the
 * directory is one atomic step; a run is any sequence of steps of any number of operations.
 */
module DeletionFence {
  import opened Text
  import opened PlacementDirectory

  // ---- Interleaved operations ----

  datatype Outcome = NotFenced | Deleted | FinalizeRefused | Restored | RestoreRefused | Other

  datatype Op =
    | Delete(key: string)
    | Fencing(key: string, read: Placement)
    | Lost(key: string)
    | Owned(key: string, epoch: int)
    | Releasing(key: string, epoch: int, to: Phase)
    | ReleaseRead(key: string, epoch: int, to: Phase, read: Placement)
    | Move(key: string, source: string, target: string)
    | MoveRead(key: string, source: string, target: string, read: Placement)
    | MoveFenced(key: string, source: string, target: string, moving: Placement)
    | MoveBack(key: string, source: string, target: string, moving: Placement)
    | Tombstone(key: string)
    | TombstoneRead(key: string, read: Placement)
    | Claim(key: string, region: string)
    | Ended(key: string, outcome: Outcome)

  datatype Write = Write(op: nat, key: string, before: Option<Placement>, after: Placement)

  /** `log` is the history of successful writes, `first` the directory before all of them. */
  datatype State = State(first: Records, records: Records, ops: map<nat, Op>, log: seq<Write>)

  /** What happens to the work between two calls of the directory. */
  datatype Luck = Succeeds | Fails | Abandons

  datatype Action =
    | Arrive(op: nat, start: Op)
    | Advance(op: nat, luck: Luck)

  function To(s: State, i: nat, op: Op): State {
    s.(ops := s.ops[i := op])
  }

  /** A write if the directory accepts it, then on to one point or the other. */
  function Attempt(s: State, i: nat, key: string, result: Option<Records>, next: Placement, won: Op, lost: Op): State {
    if result.Some? then
      var before := if key in s.records then Some(s.records[key]) else None;
      To(s, i, won).(records := result.value, log := s.log + [Write(i, key, before, next)])
    else To(s, i, lost)
  }

  function Moved(p: Placement, source: string, target: string): Placement {
    p.(epoch := p.epoch + 1, phase := Moving, movingTo := Some(target), previous := Some(source))
  }

  function Settled(moving: Placement, region: string, previous: string): Placement {
    Placement(region, moving.epoch + 1, Active, None, Some(previous))
  }

  /** Where an operation goes on from a point at which it writes nothing. */
  function Next(s: State, op: Op, luck: Luck): Op {
    match op
    case Delete(key) =>
      if key in s.records && s.records[key].phase == Active then Fencing(key, s.records[key]) else Lost(key)
    case Lost(key) => Ended(key, NotFenced)
    case Owned(key, epoch) => Releasing(key, epoch, if luck.Succeeds? then Tombstoned else Active)
    case Releasing(key, epoch, to) =>
      if Held(s.records, key, epoch) then ReleaseRead(key, epoch, to, s.records[key]) else Ended(key, Refused(to))
    case Move(key, source, target) =>
      if key in s.records && s.records[key].phase == Active && s.records[key].region == source then
        MoveRead(key, source, target, s.records[key])
      else Ended(key, Other)
    case MoveFenced(key, source, target, moving) =>
      if luck.Fails? then MoveBack(key, source, target, moving) else if luck.Abandons? then Ended(key, Other) else op
    case Tombstone(key) =>
      if key in s.records && s.records[key].phase != Tombstoned then TombstoneRead(key, s.records[key])
      else Ended(key, Other)
    case _ => op
  }

  function Refused(to: Phase): Outcome {
    if to == Tombstoned then FinalizeRefused else RestoreRefused
  }

  function Done(to: Phase): Outcome {
    if to == Tombstoned then Deleted else Restored
  }

  function AdvanceOp(s: State, i: nat, luck: Luck): State
    requires i in s.ops
  {
    match s.ops[i]
    case Fencing(key, read) =>
      Attempt(s, i, key, Swap(s.records, key, read.epoch, Active, Fenced(read)), Fenced(read), Owned(key, read.epoch + 1), Lost(key))
    case ReleaseRead(key, epoch, to, read) =>
      Attempt(s, i, key, Swap(s.records, key, read.epoch, Deleting, Released(read, to)), Released(read, to),
              Ended(key, Done(to)), Ended(key, Refused(to)))
    case MoveRead(key, source, target, read) =>
      var moving := Moved(read, source, target);
      Attempt(s, i, key, Swap(s.records, key, read.epoch, Active, moving), moving,
              MoveFenced(key, source, target, moving), Ended(key, Other))
    case MoveFenced(key, source, target, moving) =>
      if luck.Succeeds? then
        var active := Settled(moving, target, source);
        Attempt(s, i, key, Swap(s.records, key, moving.epoch, Moving, active), active, Ended(key, Other), Ended(key, Other))
      else To(s, i, Next(s, s.ops[i], luck))
    case MoveBack(key, source, target, moving) =>
      var active := Settled(moving, source, target);
      Attempt(s, i, key, Swap(s.records, key, moving.epoch, Moving, active), active, Ended(key, Other), Ended(key, Other))
    case TombstoneRead(key, read) =>
      var next := Released(read, Tombstoned);
      Attempt(s, i, key, Swap(s.records, key, read.epoch, read.phase, next), next, Ended(key, Other), Ended(key, Other))
    case Claim(key, region) =>
      var next := Placement(region, 1, Active, None, None);
      Attempt(s, i, key, Put(s.records, key, next), next, Ended(key, Other), Ended(key, Other))
    case op => To(s, i, Next(s, op, luck))
  }

  predicate Starts(op: Op) {
    op.Delete? || op.Move? || op.Tombstone? || op.Claim?
  }

  function Step(s: State, a: Action): State {
    match a
    case Arrive(i, op) => if i in s.ops || !Starts(op) then s else To(s, i, op)
    case Advance(i, luck) => if i in s.ops then AdvanceOp(s, i, luck) else s
  }

  function RunFrom(s: State, actions: seq<Action>): State {
    if actions == [] then s else Step(RunFrom(s, actions[..|actions| - 1]), actions[|actions| - 1])
  }

  /** The state after a run that starts with these records and no operation under way. */
  function Run(first: Records, actions: seq<Action>): State {
    RunFrom(State(first, first, map[], []), actions)
  }
}
