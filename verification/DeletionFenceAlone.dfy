/** What each operation on the directory comes to when nothing interferes with it. */
module DeletionFenceAlone {
  import opened Text
  import opened PlacementDirectory
  import opened DeletionFence

  /** The next `n` steps of one operation, with no one else in between. */
  function Alone(s: State, i: nat, luck: Luck, n: nat): State
    decreases n
  {
    if n == 0 then s else Alone(Step(s, Advance(i, luck)), i, luck, n - 1)
  }

  /** These steps are a part of a run. */
  lemma {:induction false} AloneRuns(s: State, i: nat, luck: Luck, n: nat)
    ensures Alone(s, i, luck, n) == RunFrom(s, seq(n, _ => Advance(i, luck)))
    decreases n
  {
    hide Step;
    var a := Advance(i, luck);
    if n > 0 {
      AloneRuns(Step(s, a), i, luck, n - 1);
      RunFromFirst(s, a, seq(n - 1, _ => a));
      assert [a] + seq(n - 1, _ => a) == seq(n, _ => a);
    }
  }

  lemma {:induction false} RunFromFirst(s: State, a: Action, rest: seq<Action>)
    ensures RunFrom(s, [a] + rest) == RunFrom(Step(s, a), rest)
  {
    hide Step;
    if rest == [] {
      assert [a] + rest == [a] && [a][..0] == [];
    } else {
      RunFromFirst(s, a, rest[..|rest| - 1]);
      assert ([a] + rest)[..|rest|] == [a] + rest[..|rest| - 1];
    }
  }

  /** The operation is at this point, the directory holds these records, and no other operation has moved. */
  predicate Became(s: State, t: State, i: nat, op: Op, records: Records) {
    t.ops == s.ops[i := op] && t.records == records
  }

  lemma BecameTwice(s: State, t: State, u: State, i: nat, q: Op, op: Op, first: Records, second: Records)
    requires Became(s, t, i, q, first) && Became(t, u, i, op, second)
    ensures Became(s, u, i, op, second)
  {
  }

  lemma BecameAt(s: State, t: State, i: nat, op: Op, records: Records)
    requires Became(s, t, i, op, records)
    ensures i in t.ops && t.ops[i] == op && t.records == records
  {
  }

  lemma AloneStep(s: State, i: nat, luck: Luck, n: nat)
    requires n > 0
    ensures Alone(s, i, luck, n) == Alone(Step(s, Advance(i, luck)), i, luck, n - 1)
  {
  }

  /** What has ended stays as it is. */
  lemma {:induction false} EndedAlone(s: State, i: nat, luck: Luck, n: nat)
    requires i in s.ops && s.ops[i].Ended?
    ensures Alone(s, i, luck, n) == s
    decreases n
  {
    if n > 0 {
      assert s.ops[i := s.ops[i]] == s.ops;
      EndedAlone(s, i, luck, n - 1);
    }
  }

  lemma {:induction false} AloneJoins(s: State, i: nat, luck: Luck, m: nat, n: nat)
    ensures Alone(s, i, luck, m + n) == Alone(Alone(s, i, luck, m), i, luck, n)
    decreases m
  {
    hide Step;
    if m > 0 {
      AloneJoins(Step(s, Advance(i, luck)), i, luck, m - 1, n);
    }
  }

  lemma {:induction false} AloneTwo(s: State, i: nat, luck: Luck)
    ensures Alone(s, i, luck, 2) == Step(Step(s, Advance(i, luck)), Advance(i, luck))
    ensures Alone(s, i, luck, 1) == Step(s, Advance(i, luck))
  {
    hide Step;
    AloneStep(s, i, luck, 2);
    AloneStep(s, i, luck, 1);
    AloneStep(Step(s, Advance(i, luck)), i, luck, 1);
  }

  lemma ArrivesAlone(s: State, i: nat, op: Op)
    requires i !in s.ops && (op.Delete? || op.Move? || op.Tombstone? || op.Claim?)
    ensures Became(s, Step(s, Arrive(i, op)), i, op, s.records)
  {
  }

  /** There are epochs left for one more write, and the names are not blank. */
  predicate Room(key: string, region: string, epoch: int) {
    Trim(key) != "" && Trim(region) != "" && 0 <= epoch < MAX_SAFE_INTEGER
  }

  // ---- Deletions ----

  lemma ReadForRelease(s: State, i: nat, luck: Luck, key: string, epoch: int, to: Phase)
    requires i in s.ops && s.ops[i] == Releasing(key, epoch, to) && Held(s.records, key, epoch)
    ensures Became(s, Step(s, Advance(i, luck)), i, ReleaseRead(key, epoch, to, s.records[key]), s.records)
  {
  }

  lemma WriteRelease(s: State, i: nat, luck: Luck, key: string, epoch: int, to: Phase)
    requires i in s.ops && Held(s.records, key, epoch) && (to == Active || to == Tombstoned)
    requires s.ops[i] == ReleaseRead(key, epoch, to, s.records[key])
    ensures
      var p, t := s.records[key], Step(s, Advance(i, luck));
      if Room(key, p.region, epoch) then
        Became(s, t, i, Ended(key, if to == Tombstoned then Deleted else Restored),
               s.records[key := p.(epoch := epoch + 1, phase := to, movingTo := None)])
      else Became(s, t, i, Ended(key, if to == Tombstoned then FinalizeRefused else RestoreRefused), s.records)
  {
    hide Trim;
  }

  lemma ChooseRelease(s: State, i: nat, luck: Luck, key: string, epoch: int)
    requires i in s.ops && s.ops[i] == Owned(key, epoch)
    ensures Became(s, Step(s, Advance(i, luck)), i, Releasing(key, epoch, if luck == Succeeds then Tombstoned else Active), s.records)
  {
  }

  /**
   * An owner whose fence stands tombstones the placement if the account was deleted, and gives it back as
   * active if that failed; it ends accordingly. Without an epoch left it is refused, and the fence stays.
   */
  lemma {:induction false} OwnerFinishes(s: State, i: nat, luck: Luck)
    requires i in s.ops && s.ops[i].Owned? && Held(s.records, s.ops[i].key, s.ops[i].epoch)
    ensures
      var key, p, t := s.ops[i].key, s.records[s.ops[i].key], Alone(s, i, luck, 3);
      if Room(key, p.region, p.epoch) then
        if luck == Succeeds then
          Became(s, t, i, Ended(key, Deleted), s.records[key := p.(epoch := p.epoch + 1, phase := Tombstoned, movingTo := None)])
        else
          Became(s, t, i, Ended(key, Restored), s.records[key := p.(epoch := p.epoch + 1, phase := Active, movingTo := None)])
      else Became(s, t, i, Ended(key, if luck == Succeeds then FinalizeRefused else RestoreRefused), s.records)
  {
    var key, epoch, p := s.ops[i].key, s.ops[i].epoch, s.records[s.ops[i].key];
    var to := if luck == Succeeds then Tombstoned else Active;
    var u := Step(s, Advance(i, luck));
    var v := Step(u, Advance(i, luck));
    var w := Step(v, Advance(i, luck));
    AloneStep(s, i, luck, 3);
    AloneTwo(u, i, luck);
    ChooseRelease(s, i, luck, key, epoch);
    hide Alone, Step, Became, Room;
    BecameAt(s, u, i, Releasing(key, epoch, to), s.records);
    ReadForRelease(u, i, luck, key, epoch, to);
    BecameAt(u, v, i, ReleaseRead(key, epoch, to, p), s.records);
    WriteRelease(v, i, luck, key, epoch, to);
    BecameTwice(s, u, v, i, Releasing(key, epoch, to), ReleaseRead(key, epoch, to, p), s.records, s.records);
    if Room(key, p.region, p.epoch) {
      BecameTwice(s, v, w, i, ReleaseRead(key, epoch, to, p), Ended(key, if to == Tombstoned then Deleted else Restored),
                  s.records, s.records[key := p.(epoch := epoch + 1, phase := to, movingTo := None)]);
    } else {
      BecameTwice(s, v, w, i, ReleaseRead(key, epoch, to, p),
                  Ended(key, if to == Tombstoned then FinalizeRefused else RestoreRefused), s.records, s.records);
    }
  }

  /** A deletion may fence this placement. */
  predicate Fenceable(records: Records, key: string) {
    key in records && records[key].phase == Active && Room(key, records[key].region, records[key].epoch)
  }

  /** How a deletion alone with the directory ends. */
  function Verdict(records: Records, key: string, cascade: bool): Outcome {
    if !Fenceable(records, key) then NotFenced
    else if records[key].epoch + 2 <= MAX_SAFE_INTEGER then if cascade then Deleted else Restored
    else if cascade then FinalizeRefused else RestoreRefused
  }

  /** What a deletion alone leaves of its placement: two epochs further, tombstoned or active again. */
  lemma AfterDeletionIs(records: Records, key: string, cascade: bool)
    ensures
      var after := AfterDeletion(records, key, cascade);
      match Verdict(records, key, cascade)
      case NotFenced => after == records
      case Deleted => after == records[key := records[key].(epoch := records[key].epoch + 2, phase := Tombstoned, movingTo := None)]
      case Restored => after == records[key := records[key].(epoch := records[key].epoch + 2, phase := Active, movingTo := None)]
      case _ => after == records[key := records[key].(epoch := MAX_SAFE_INTEGER, phase := Deleting, movingTo := None)]
  {
    hide Trim;
  }

  lemma ReadForFence(s: State, i: nat, luck: Luck, key: string)
    requires i in s.ops && s.ops[i] == Delete(key)
    ensures
      Became(s, Step(s, Advance(i, luck)), i,
             if key in s.records && s.records[key].phase == Active then Fencing(key, s.records[key]) else Lost(key), s.records)
  {
  }

  lemma WriteFence(s: State, i: nat, luck: Luck, key: string)
    requires i in s.ops && key in s.records && s.records[key].phase == Active && s.ops[i] == Fencing(key, s.records[key])
    ensures
      var p, t := s.records[key], Step(s, Advance(i, luck));
      if Room(key, p.region, p.epoch) then
        Became(s, t, i, Owned(key, p.epoch + 1), s.records[key := p.(epoch := p.epoch + 1, phase := Deleting, movingTo := None)])
      else Became(s, t, i, Lost(key), s.records)
  {
    hide Trim;
  }

  /** The fence is got exactly on an active placement with an epoch left. */
  lemma {:induction false} FenceAlone(s: State, i: nat, luck: Luck, key: string)
    requires i in s.ops && s.ops[i] == Delete(key)
    ensures
      var t := Alone(s, i, luck, 2);
      if Fenceable(s.records, key) then
        var p := s.records[key];
        Became(s, t, i, Owned(key, p.epoch + 1), s.records[key := p.(epoch := p.epoch + 1, phase := Deleting, movingTo := None)])
      else
        Became(s, t, i, Lost(key), s.records) || Became(s, t, i, Ended(key, NotFenced), s.records)
  {
    AloneTwo(s, i, luck);
    ReadForFence(s, i, luck, key);
    var u := Step(s, Advance(i, luck));
    var v := Step(u, Advance(i, luck));
    hide Alone, Step, Became, Room;
    if key in s.records && s.records[key].phase == Active {
      var p := s.records[key];
      BecameAt(s, u, i, Fencing(key, p), s.records);
      WriteFence(u, i, luck, key);
      if Room(key, p.region, p.epoch) {
        BecameTwice(s, u, v, i, Fencing(key, p), Owned(key, p.epoch + 1), s.records,
                    s.records[key := p.(epoch := p.epoch + 1, phase := Deleting, movingTo := None)]);
      } else {
        BecameTwice(s, u, v, i, Fencing(key, p), Lost(key), s.records, s.records);
      }
    } else {
      BecameAt(s, u, i, Lost(key), s.records);
      LostEnds(u, i, luck, key);
      BecameTwice(s, u, v, i, Lost(key), Ended(key, NotFenced), s.records, s.records);
    }
  }

  lemma LostEnds(s: State, i: nat, luck: Luck, key: string)
    requires i in s.ops && s.ops[i] == Lost(key)
    ensures Became(s, Step(s, Advance(i, luck)), i, Ended(key, NotFenced), s.records)
  {
  }

  lemma {:induction false} LostAlone(s: State, i: nat, luck: Luck, n: nat, key: string)
    requires i in s.ops && (s.ops[i] == Lost(key) || s.ops[i] == Ended(key, NotFenced)) && n > 0
    ensures Became(s, Alone(s, i, luck, n), i, Ended(key, NotFenced), s.records)
  {
    if s.ops[i].Ended? {
      EndedAlone(s, i, luck, n);
      assert s.ops[i := s.ops[i]] == s.ops;
    } else {
      LostEnds(s, i, luck, key);
      AloneStep(s, i, luck, n);
      hide Step;
      EndedAlone(Step(s, Advance(i, luck)), i, luck, n - 1);
    }
  }

  /** A deletion that arrives at any time and is then alone leaves what the directory's own specification says. */
  lemma {:induction false} DeleteAlone(s: State, i: nat, luck: Luck, key: string)
    requires i !in s.ops
    ensures
      var t := Alone(Step(s, Arrive(i, Delete(key))), i, luck, 5);
      Became(s, t, i, Ended(key, Verdict(s.records, key, luck == Succeeds)), AfterDeletion(s.records, key, luck == Succeeds))
  {
    var a := Step(s, Arrive(i, Delete(key)));
    var b, c := Alone(a, i, luck, 2), Alone(a, i, luck, 5);
    ArrivesAlone(s, i, Delete(key));
    AfterDeletionIs(s.records, key, luck == Succeeds);
    AloneJoins(a, i, luck, 2, 3);
    assert !Fenceable(s.records, key) ==> Verdict(s.records, key, luck == Succeeds) == NotFenced;
    hide Alone, Step, Became, AfterDeletion, Room, Fenceable, Verdict;
    BecameAt(s, a, i, Delete(key), s.records);
    FenceAlone(a, i, luck, key);
    if Fenceable(s.records, key) {
      FencedAlone(s, a, b, i, luck, key);
    } else {
      var q := if Became(a, b, i, Lost(key), s.records) then Lost(key) else Ended(key, NotFenced);
      BecameAt(a, b, i, q, s.records);
      LostAlone(b, i, luck, 3, key);
      BecameTwice(s, a, b, i, Delete(key), q, s.records, s.records);
      BecameTwice(s, b, c, i, q, Ended(key, NotFenced), s.records, s.records);
    }
  }

  /** The two writes of a deletion, one after the other. */
  lemma TwoWrites(records: Records, key: string, cascade: bool)
    requires Fenceable(records, key)
    ensures
      var fenced := records[key].(epoch := records[key].epoch + 1, phase := Deleting, movingTo := None);
      AfterDeletion(records, key, cascade) ==
        if Room(key, fenced.region, fenced.epoch) then
          records[key := fenced][key := fenced.(epoch := fenced.epoch + 1, phase := if cascade then Tombstoned else Active, movingTo := None)]
        else records[key := fenced]
  {
    AfterDeletionIs(records, key, cascade);
    hide AfterDeletion, Trim;
  }

  lemma RoomForTwo(records: Records, key: string, cascade: bool)
    requires Fenceable(records, key)
    ensures Verdict(records, key, cascade) ==
            if Room(key, records[key].region, records[key].epoch + 1) then if cascade then Deleted else Restored
            else if cascade then FinalizeRefused else RestoreRefused
  {
    hide Trim;
  }

  /** The second half of a deletion that has got its fence. */
  lemma {:induction false} OwnedAlone(s: State, a: State, b: State, i: nat, luck: Luck, key: string, epoch: int, records: Records, after: Records, end: Outcome)
    requires Held(records, key, epoch) && Became(s, a, i, Delete(key), s.records) && Became(a, b, i, Owned(key, epoch), records)
    requires
      var p := records[key];
      after == if Room(key, p.region, epoch) then
                 records[key := p.(epoch := epoch + 1, phase := if luck == Succeeds then Tombstoned else Active, movingTo := None)]
               else records
    requires end == if Room(key, records[key].region, epoch) then if luck == Succeeds then Deleted else Restored
                    else if luck == Succeeds then FinalizeRefused else RestoreRefused
    ensures Became(s, Alone(b, i, luck, 3), i, Ended(key, end), after)
  {
    BecameAt(a, b, i, Owned(key, epoch), records);
    OwnerFinishes(b, i, luck);
    BecameTwice(s, a, b, i, Delete(key), Owned(key, epoch), s.records, records);
    assert records[key].epoch == epoch;
    hide *;
    BecameTwice(s, b, Alone(b, i, luck, 3), i, Owned(key, epoch), Ended(key, end), records, after);
  }

  lemma {:induction false} FencedAlone(s: State, a: State, b: State, i: nat, luck: Luck, key: string)
    requires Fenceable(s.records, key) && Became(s, a, i, Delete(key), s.records)
    requires
      var p := s.records[key];
      Became(a, b, i, Owned(key, p.epoch + 1), s.records[key := p.(epoch := p.epoch + 1, phase := Deleting, movingTo := None)])
    ensures
      Became(s, Alone(b, i, luck, 3), i, Ended(key, Verdict(s.records, key, luck == Succeeds)),
             AfterDeletion(s.records, key, luck == Succeeds))
  {
    var p := s.records[key];
    var fenced := p.(epoch := p.epoch + 1, phase := Deleting, movingTo := None);
    TwoWrites(s.records, key, luck == Succeeds);
    RoomForTwo(s.records, key, luck == Succeeds);
    assert Held(s.records[key := fenced], key, p.epoch + 1);
    hide *;
    OwnedAlone(s, a, b, i, luck, key, p.epoch + 1, s.records[key := fenced], AfterDeletion(s.records, key, luck == Succeeds),
               Verdict(s.records, key, luck == Succeeds));
  }

  // ---- Moves, tombstones and claims ----

  /** A move may fence this placement. */
  predicate Movable(records: Records, key: string, source: string) {
    && key in records && records[key].phase == Active && records[key].region == source
    && Room(key, source, records[key].epoch)
  }

  lemma ReadForMove(s: State, i: nat, luck: Luck, key: string, source: string, target: string)
    requires i in s.ops && s.ops[i] == Move(key, source, target)
    ensures
      Became(s, Step(s, Advance(i, luck)), i,
             if key in s.records && s.records[key].phase == Active && s.records[key].region == source
             then MoveRead(key, source, target, s.records[key]) else Ended(key, Other), s.records)
  {
  }

  lemma WriteMove(s: State, i: nat, luck: Luck, key: string, source: string, target: string)
    requires i in s.ops && key in s.records && s.records[key].phase == Active && s.records[key].region == source
    requires s.ops[i] == MoveRead(key, source, target, s.records[key])
    ensures
      var t, moving := Step(s, Advance(i, luck)), Placement(source, s.records[key].epoch + 1, Moving, Some(target), Some(source));
      if Room(key, source, s.records[key].epoch) then
        Became(s, t, i, MoveFenced(key, source, target, moving), s.records[key := moving])
      else Became(s, t, i, Ended(key, Other), s.records)
  {
    hide Trim;
  }

  /** What a fenced move does next. */
  lemma TurnMove(s: State, i: nat, luck: Luck, key: string, source: string, target: string)
    requires i in s.ops && key in s.records && s.records[key].phase == Moving
    requires s.ops[i] == MoveFenced(key, source, target, s.records[key])
    ensures
      var p, t := s.records[key], Step(s, Advance(i, luck));
      match luck
      case Succeeds =>
        Became(s, t, i, Ended(key, Other),
               if Room(key, target, p.epoch) then s.records[key := Placement(target, p.epoch + 1, Active, None, Some(source))] else s.records)
      case Fails => Became(s, t, i, MoveBack(key, source, target, p), s.records)
      case Abandons => Became(s, t, i, Ended(key, Other), s.records)
  {
    hide Trim;
  }

  lemma BackMove(s: State, i: nat, luck: Luck, key: string, source: string, target: string)
    requires i in s.ops && key in s.records && s.records[key].phase == Moving
    requires s.ops[i] == MoveBack(key, source, target, s.records[key])
    ensures
      var p, t := s.records[key], Step(s, Advance(i, luck));
      Became(s, t, i, Ended(key, Other),
             if Room(key, source, p.epoch) then s.records[key := Placement(source, p.epoch + 1, Active, None, Some(target))] else s.records)
  {
    hide Trim;
  }

  /** A fenced move alone settles in the target, goes back to the source, or stays. */
  lemma {:induction false} SettledMove(s: State, i: nat, luck: Luck, key: string, source: string, target: string)
    requires i in s.ops && key in s.records && s.records[key].phase == Moving
    requires s.ops[i] == MoveFenced(key, source, target, s.records[key])
    ensures
      var p, t := s.records[key], Alone(s, i, luck, 2);
      var from, to := if luck == Succeeds then source else target, if luck == Succeeds then target else source;
      Became(s, t, i, Ended(key, Other),
             if luck != Abandons && Room(key, to, p.epoch)
             then s.records[key := Placement(to, p.epoch + 1, Active, None, Some(from))] else s.records)
  {
    AloneTwo(s, i, luck);
    TurnMove(s, i, luck, key, source, target);
    var p, u := s.records[key], Step(s, Advance(i, luck));
    if luck == Fails {
      hide Alone, Step, Became, Room;
      var v := Step(u, Advance(i, luck));
      BecameAt(s, u, i, MoveBack(key, source, target, p), s.records);
      BackMove(u, i, luck, key, source, target);
      var after := if Room(key, source, p.epoch) then s.records[key := Placement(source, p.epoch + 1, Active, None, Some(target))]
                   else s.records;
      BecameTwice(s, u, v, i, MoveBack(key, source, target, p), Ended(key, Other), s.records, after);
    } else {
      AloneStep(u, i, luck, 1);
      hide Step;
      EndedAlone(u, i, luck, 1);
    }
  }

  lemma {:induction false} FencedMove(s: State, i: nat, luck: Luck, key: string, source: string, target: string)
    requires i in s.ops && s.ops[i] == Move(key, source, target)
    ensures
      var t := Alone(s, i, luck, 2);
      if Movable(s.records, key, source) then
        var moving := Placement(source, s.records[key].epoch + 1, Moving, Some(target), Some(source));
        Became(s, t, i, MoveFenced(key, source, target, moving), s.records[key := moving])
      else Became(s, t, i, Ended(key, Other), s.records)
  {
    AloneTwo(s, i, luck);
    ReadForMove(s, i, luck, key, source, target);
    var u := Step(s, Advance(i, luck));
    var v := Step(u, Advance(i, luck));
    if key in s.records && s.records[key].phase == Active && s.records[key].region == source {
      hide Alone, Step, Became, Room;
      var p := s.records[key];
      var moving := Placement(source, p.epoch + 1, Moving, Some(target), Some(source));
      BecameAt(s, u, i, MoveRead(key, source, target, p), s.records);
      WriteMove(u, i, luck, key, source, target);
      if Room(key, source, p.epoch) {
        BecameTwice(s, u, v, i, MoveRead(key, source, target, p), MoveFenced(key, source, target, moving),
                    s.records, s.records[key := moving]);
      } else {
        BecameTwice(s, u, v, i, MoveRead(key, source, target, p), Ended(key, Other), s.records, s.records);
      }
    } else {
      AloneStep(u, i, luck, 1);
      hide Step;
      EndedAlone(u, i, luck, 1);
    }
  }

  /**
   * What a move leaves: an active placement of the source region comes to the target in two epochs, or back
   * to the source; a move that is abandoned, or finds no epoch left, leaves it fenced as moving.
   */
  function AfterMove(records: Records, key: string, source: string, target: string, luck: Luck): Records {
    if !Movable(records, key, source) then records
    else
      var epoch := records[key].epoch;
      match luck
      case Succeeds =>
        records[key := if Room(key, target, epoch + 1) then Placement(target, epoch + 2, Active, None, Some(source))
                       else Placement(source, epoch + 1, Moving, Some(target), Some(source))]
      case Fails =>
        records[key := if Room(key, source, epoch + 1) then Placement(source, epoch + 2, Active, None, Some(target))
                       else Placement(source, epoch + 1, Moving, Some(target), Some(source))]
      case Abandons => records[key := Placement(source, epoch + 1, Moving, Some(target), Some(source))]
  }

  lemma {:induction false} MovedOn(s: State, a: State, b: State, i: nat, luck: Luck, key: string, source: string, target: string)
    requires Movable(s.records, key, source) && Became(s, a, i, Move(key, source, target), s.records)
    requires
      var moving := Placement(source, s.records[key].epoch + 1, Moving, Some(target), Some(source));
      Became(a, b, i, MoveFenced(key, source, target, moving), s.records[key := moving])
    ensures Became(s, Alone(b, i, luck, 2), i, Ended(key, Other), AfterMove(s.records, key, source, target, luck))
  {
    var moving := Placement(source, s.records[key].epoch + 1, Moving, Some(target), Some(source));
    TwoMoves(s.records, key, source, target, luck);
    hide *;
    MovedTwice(s, a, b, i, luck, key, source, target, s.records[key := moving], AfterMove(s.records, key, source, target, luck));
  }

  /** A move that arrives at any time and is then alone. */
  lemma {:induction false} MoveAlone(s: State, i: nat, luck: Luck, key: string, source: string, target: string)
    requires i !in s.ops
    ensures
      var t := Alone(Step(s, Arrive(i, Move(key, source, target))), i, luck, 4);
      Became(s, t, i, Ended(key, Other), AfterMove(s.records, key, source, target, luck))
  {
    var a := Step(s, Arrive(i, Move(key, source, target)));
    var b := Alone(a, i, luck, 2);
    hide *;
    ArrivesAlone(s, i, Move(key, source, target));
    AloneJoins(a, i, luck, 2, 2);
    MoveStarts(s, a, i, luck, key, source, target);
    if Movable(s.records, key, source) {
      MovedOn(s, a, b, i, luck, key, source, target);
    } else {
      NotMoved(s, a, b, i, luck, key, source, target);
    }
  }

  /** The first half of a move. */
  lemma {:induction false} MoveStarts(s: State, a: State, i: nat, luck: Luck, key: string, source: string, target: string)
    requires Became(s, a, i, Move(key, source, target), s.records)
    ensures
      if Movable(s.records, key, source) then
        var moving := Placement(source, s.records[key].epoch + 1, Moving, Some(target), Some(source));
        Became(a, Alone(a, i, luck, 2), i, MoveFenced(key, source, target, moving), s.records[key := moving])
      else Became(a, Alone(a, i, luck, 2), i, Ended(key, Other), s.records)
  {
    BecameAt(s, a, i, Move(key, source, target), s.records);
    hide Alone, Became;
    FencedMove(a, i, luck, key, source, target);
  }

  lemma {:induction false} NotMoved(s: State, a: State, b: State, i: nat, luck: Luck, key: string, source: string, target: string)
    requires !Movable(s.records, key, source) && Became(s, a, i, Move(key, source, target), s.records)
    requires Became(a, b, i, Ended(key, Other), s.records)
    ensures Became(s, Alone(b, i, luck, 2), i, Ended(key, Other), AfterMove(s.records, key, source, target, luck))
  {
    assert AfterMove(s.records, key, source, target, luck) == s.records;
    hide *;
    BecameAt(a, b, i, Ended(key, Other), s.records);
    EndedAlone(b, i, luck, 2);
    BecameTwice(s, a, b, i, Move(key, source, target), Ended(key, Other), s.records, s.records);
  }

  /** The two writes of a move, one after the other. */
  lemma TwoMoves(records: Records, key: string, source: string, target: string, luck: Luck)
    requires Movable(records, key, source)
    ensures
      var moving := Placement(source, records[key].epoch + 1, Moving, Some(target), Some(source));
      var from, to := if luck == Succeeds then source else target, if luck == Succeeds then target else source;
      AfterMove(records, key, source, target, luck) ==
        if luck != Abandons && Room(key, to, moving.epoch) then
          records[key := moving][key := Placement(to, moving.epoch + 1, Active, None, Some(from))]
        else records[key := moving]
  {
    hide Room;
  }

  /** The second half of a move that has fenced its placement. */
  lemma {:induction false} MovedTwice(
    s: State, a: State, b: State, i: nat, luck: Luck, key: string, source: string, target: string, records: Records, after: Records)
    requires key in records && records[key].phase == Moving
    requires Became(s, a, i, Move(key, source, target), s.records)
    requires Became(a, b, i, MoveFenced(key, source, target, records[key]), records)
    requires
      var from, to := if luck == Succeeds then source else target, if luck == Succeeds then target else source;
      after == if luck != Abandons && Room(key, to, records[key].epoch)
               then records[key := Placement(to, records[key].epoch + 1, Active, None, Some(from))] else records
    ensures Became(s, Alone(b, i, luck, 2), i, Ended(key, Other), after)
  {
    var op := MoveFenced(key, source, target, records[key]);
    BecameAt(a, b, i, op, records);
    SettledMove(b, i, luck, key, source, target);
    hide *;
    BecameTwice(s, a, b, i, Move(key, source, target), op, s.records, records);
    BecameTwice(s, b, Alone(b, i, luck, 2), i, op, Ended(key, Other), records, after);
  }

  lemma ReadForTombstone(s: State, i: nat, luck: Luck, key: string)
    requires i in s.ops && s.ops[i] == Op.Tombstone(key)
    ensures
      Became(s, Step(s, Advance(i, luck)), i,
             if key in s.records && s.records[key].phase != Tombstoned then TombstoneRead(key, s.records[key]) else Ended(key, Other),
             s.records)
  {
  }

  lemma WriteTombstone(s: State, i: nat, luck: Luck, key: string)
    requires i in s.ops && key in s.records && s.ops[i] == TombstoneRead(key, s.records[key])
    ensures
      var p, t := s.records[key], Step(s, Advance(i, luck));
      Became(s, t, i, Ended(key, Other),
             if Room(key, p.region, p.epoch) then s.records[key := p.(epoch := p.epoch + 1, phase := Tombstoned, movingTo := None)]
             else s.records)
  {
    hide Trim;
  }

  /** A tombstone alone, on a placement in any state but tombstoned. */
  lemma {:induction false} TombstoneAlone(s: State, i: nat, luck: Luck, key: string)
    requires i !in s.ops
    ensures
      var t := Alone(Step(s, Arrive(i, Op.Tombstone(key))), i, luck, 2);
      Became(s, t, i, Ended(key, Other),
        if key in s.records && s.records[key].phase != Tombstoned && Room(key, s.records[key].region, s.records[key].epoch) then
          s.records[key := s.records[key].(epoch := s.records[key].epoch + 1, phase := Tombstoned, movingTo := None)]
        else s.records)
  {
    var a := Step(s, Arrive(i, Op.Tombstone(key)));
    ArrivesAlone(s, i, Op.Tombstone(key));
    AloneTwo(a, i, luck);
    var u := Step(a, Advance(i, luck));
    var v := Step(u, Advance(i, luck));
    BecameAt(s, a, i, Op.Tombstone(key), s.records);
    ReadForTombstone(a, i, luck, key);
    var q := if key in s.records && s.records[key].phase != Tombstoned then TombstoneRead(key, s.records[key]) else Ended(key, Other);
    hide Step, Became, Room;
    BecameAt(a, u, i, q, s.records);
    BecameTwice(s, a, u, i, Op.Tombstone(key), q, s.records, s.records);
    if q.Ended? {
      AloneTwo(u, i, luck);
      EndedAlone(u, i, luck, 1);
    } else {
      WriteTombstone(u, i, luck, key);
      var p := s.records[key];
      var after := if Room(key, p.region, p.epoch) then s.records[key := p.(epoch := p.epoch + 1, phase := Tombstoned, movingTo := None)]
                   else s.records;
      BecameTwice(s, u, v, i, q, Ended(key, Other), s.records, after);
    }
  }

  lemma WriteClaim(s: State, i: nat, luck: Luck, key: string, region: string)
    requires i in s.ops && s.ops[i] == Claim(key, region)
    ensures
      Became(s, Step(s, Advance(i, luck)), i, Ended(key, Other),
             if key !in s.records && Trim(key) != "" && Trim(region) != ""
             then s.records[key := Placement(region, 1, Active, None, None)] else s.records)
  {
    hide Trim;
  }

  /** A claim alone, on an identity without a placement. */
  lemma {:induction false} ClaimAlone(s: State, i: nat, luck: Luck, key: string, region: string)
    requires i !in s.ops
    ensures
      var t := Alone(Step(s, Arrive(i, Claim(key, region))), i, luck, 1);
      Became(s, t, i, Ended(key, Other),
             if key !in s.records && Trim(key) != "" && Trim(region) != ""
             then s.records[key := Placement(region, 1, Active, None, None)] else s.records)
  {
    var a := Step(s, Arrive(i, Claim(key, region)));
    ArrivesAlone(s, i, Claim(key, region));
    AloneTwo(a, i, luck);
    BecameAt(s, a, i, Claim(key, region), s.records);
    WriteClaim(a, i, luck, key, region);
    hide Step, Became, Trim;
    var after := if key !in s.records && Trim(key) != "" && Trim(region) != ""
                 then s.records[key := Placement(region, 1, Active, None, None)] else s.records;
    BecameTwice(s, a, Step(a, Advance(i, luck)), i, Claim(key, region), Ended(key, Other), s.records, after);
  }
}
