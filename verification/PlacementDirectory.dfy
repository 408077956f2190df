/**
 * The placement directory and the operations of one account deletion on it:
 * authfn/core/src/core/gateway-routing.ts, authfn/multi-region/src/index.ts.
 */
module PlacementDirectory {
  import opened Text

  datatype Phase = Active | Moving | Deleting | Tombstoned

  datatype Placement = Placement(
    region: string, epoch: int, phase: Phase, movingTo: Option<string>, previous: Option<string>)

  type Records = map<string, Placement>

  predicate Valid(key: string, p: Placement) {
    Trim(key) != "" && Trim(p.region) != "" && 1 <= p.epoch <= MAX_SAFE_INTEGER
  }

  predicate ValidRecords(records: Records) {
    forall key :: key in records ==> Valid(key, records[key])
  }

  // ---- The directory ----

  /** What the directory holds after a compare-and-set; `None` when it is refused or throws. */
  function Swap(records: Records, key: string, epoch: int, phase: Phase, next: Placement): Option<Records> {
    if Valid(key, next) && key in records && records[key].epoch == epoch && records[key].phase == phase then
      Some(records[key := next])
    else None
  }

  function Put(records: Records, key: string, next: Placement): Option<Records> {
    if Valid(key, next) && key !in records then Some(records[key := next]) else None
  }

  /** The in-memory directory. */
  class Directory {
    var records: Records

    constructor (initial: Records)
      ensures records == initial
    {
      records := initial;
    }

    method Get(key: string) returns (p: Option<Placement>)
      ensures p == if key in records then Some(records[key]) else None
    {
      p := if key in records then Some(records[key]) else None;
    }

    /** `existing` is the record that stood in the way, if any. */
    method PutIfAbsent(key: string, next: Placement) returns (thrown: bool, inserted: bool, existing: Option<Placement>)
      modifies this
      ensures thrown <==> !Valid(key, next)
      ensures inserted <==> Put(old(records), key, next).Some?
      ensures records == if inserted then Put(old(records), key, next).value else old(records)
      ensures !thrown ==> existing == if key in old(records) then Some(old(records)[key]) else None
      ensures ValidRecords(old(records)) ==> ValidRecords(records)
    {
      thrown, inserted, existing := !Valid(key, next), false, None;
      if thrown {
        return;
      }
      existing := Get(key);
      if existing.Some? {
        return;
      }
      records := records[key := next];
      inserted := true;
    }

    method CompareAndSet(key: string, epoch: int, phase: Phase, next: Placement) returns (updated: bool)
      modifies this
      ensures updated <==> Swap(old(records), key, epoch, phase, next).Some?
      ensures records == if updated then Swap(old(records), key, epoch, phase, next).value else old(records)
      ensures ValidRecords(old(records)) ==> ValidRecords(records)
    {
      updated := false;
      if !Valid(key, next) {
        return;
      }
      var existing := Get(key);
      if existing.None? || existing.value.epoch != epoch || existing.value.phase != phase {
        return;
      }
      records := records[key := next];
      updated := true;
    }

    /** The fence of a deletion: the epoch it owns, if it got one. */
    method Fence(key: string) returns (owned: Option<int>)
      modifies this
      ensures owned.Some? <==> key in old(records) && old(records)[key].phase == Active
                               && Valid(key, Fenced(old(records)[key]))
      ensures owned.None? ==> records == old(records)
      ensures owned.Some? ==>
                owned.value == old(records)[key].epoch + 1 && records == old(records)[key := Fenced(old(records)[key])]
      ensures ValidRecords(old(records)) ==> ValidRecords(records)
    {
      var current := Get(key);
      if current.None? || current.value.phase != Active {
        return None;
      }
      var updated := CompareAndSet(key, current.value.epoch, Active, Fenced(current.value));
      owned := if updated then Some(current.value.epoch + 1) else None;
    }

    /** Leaves `Deleting`, for the owner of the fence with this epoch only. */
    method Release(key: string, epoch: int, to: Phase) returns (done: bool)
      requires to == Active || to == Tombstoned
      modifies this
      ensures done <==> Held(old(records), key, epoch) && Valid(key, Released(old(records)[key], to))
      ensures records == if done then old(records)[key := Released(old(records)[key], to)] else old(records)
      ensures ValidRecords(old(records)) ==> ValidRecords(records)
    {
      var current := Get(key);
      if current.None? || current.value.phase != Deleting || current.value.epoch != epoch {
        return false;
      }
      done := CompareAndSet(key, epoch, Deleting, Released(current.value, to));
    }

    /** A deletion whose cascade succeeds or fails, with no one else at work. */
    method DeleteAccount(key: string, cascade: bool) returns (deleted: bool)
      modifies this
      ensures records == AfterDeletion(old(records), key, cascade)
      ensures deleted <==> cascade && CanFence(old(records), key) && old(records)[key].epoch + 2 <= MAX_SAFE_INTEGER
      ensures ValidRecords(old(records)) ==> ValidRecords(records)
    {
      deleted := false;
      var owned := Fence(key);
      if owned.Some? {
        if cascade {
          deleted := Release(key, owned.value, Tombstoned);
        } else {
          var restored := Release(key, owned.value, Active);
        }
      }
    }
  }

  predicate CanFence(records: Records, key: string) {
    key in records && records[key].phase == Active && Valid(key, Fenced(records[key]))
  }

  /** A fenced placement that cannot take one more epoch stays fenced. */
  function AfterDeletion(records: Records, key: string, cascade: bool): Records {
    if !CanFence(records, key) then records
    else
      var fenced := Fenced(records[key]);
      var released := Released(fenced, if cascade then Tombstoned else Active);
      records[key := if Valid(key, released) then released else fenced]
  }

  /** The placement is as before, but for two epochs and a target that no active placement has. */
  predicate Undone(before: Placement, after: Placement) {
    after == before || (before.phase == Active && after == before.(epoch := before.epoch + 2, movingTo := None))
  }

  /**
   * A failed deletion undoes its fence, unless the fence took the last epoch: then the placement stays
   * fenced. No other placement changes.
   */
  lemma FailedDeletionUndone(records: Records, key: string)
    requires key in records
    ensures
      var after := AfterDeletion(records, key, false);
      && after.Keys == records.Keys && (forall k :: k in records && k != key ==> after[k] == records[k])
      && (Undone(records[key], after[key]) <==> !(CanFence(records, key) && records[key].epoch + 1 == MAX_SAFE_INTEGER))
      && (Undone(records[key], after[key]) || Held(after, key, MAX_SAFE_INTEGER))
  {
  }

  predicate Held(records: Records, key: string, epoch: int) {
    key in records && records[key].phase == Deleting && records[key].epoch == epoch
  }

  function Fenced(p: Placement): Placement {
    p.(epoch := p.epoch + 1, phase := Deleting, movingTo := None)
  }

  function Released(p: Placement, to: Phase): Placement {
    p.(epoch := p.epoch + 1, phase := to, movingTo := None)
  }

  /** The identity that a deletion fences; no key is as good as an empty one. */
  function DeletionKey(
    verified: string, delegated: bool, user: string, email: string,
    keyForUser: string -> string, keyForIdentifier: string -> string): string
  {
    if delegated && user != "" then keyForUser(user)
    else if !delegated && verified != "" then verified
    else if email != "" then keyForIdentifier(email)
    else if user != "" then keyForUser(user)
    else ""
  }

  /**
   * A delegated deletion goes by the user, else by the address, whatever key it was routed by; a direct
   * one by the routed key, else by the address, else by the user. Only without all of them is there no key.
   */
  lemma KeyPreferred(
    verified: string, user: string, email: string, keyForUser: string -> string, keyForIdentifier: string -> string)
    ensures
      var key := DeletionKey(verified, true, user, email, keyForUser, keyForIdentifier);
      && (user != "" ==> key == keyForUser(user))
      && (user == "" && email != "" ==> key == keyForIdentifier(email))
      && (user == "" && email == "" ==> key == "")
    ensures
      var key := DeletionKey(verified, false, user, email, keyForUser, keyForIdentifier);
      && (verified != "" ==> key == verified)
      && (verified == "" && email != "" ==> key == keyForIdentifier(email))
      && (verified == "" && email == "" && user != "" ==> key == keyForUser(user))
      && (verified == "" && email == "" && user == "" ==> key == "")
  {
  }

  /** The key that the request was routed by counts exactly for direct deletions. */
  lemma RoutedKeyCounts(
    delegated: bool, user: string, email: string, keyForUser: string -> string, keyForIdentifier: string -> string)
    ensures
      (forall v, w ::
         DeletionKey(v, delegated, user, email, keyForUser, keyForIdentifier)
         == DeletionKey(w, delegated, user, email, keyForUser, keyForIdentifier))
      <==> delegated
  {
    if !delegated {
      assert DeletionKey("a", delegated, user, email, keyForUser, keyForIdentifier)
          != DeletionKey("b", delegated, user, email, keyForUser, keyForIdentifier);
    }
  }

  /** The directory after the deletion of an account. */
  function AfterAccountDeletion(
    records: Records, verified: string, delegated: bool, user: string, email: string,
    keyForUser: string -> string, keyForIdentifier: string -> string, cascade: bool): Records
  {
    AfterDeletion(records, DeletionKey(verified, delegated, user, email, keyForUser, keyForIdentifier), cascade)
  }

  /**
   * Whatever the request was routed by, a delegated deletion changes no identity but one of the
   * account's own: that of its user or that of its address. Without any key nothing changes.
   */
  lemma DelegatedDeletionStaysInAccount(
    records: Records, verified: string, user: string, email: string,
    keyForUser: string -> string, keyForIdentifier: string -> string, cascade: bool)
    ensures
      var after := AfterAccountDeletion(records, verified, true, user, email, keyForUser, keyForIdentifier, cascade);
      && after.Keys == records.Keys
      && (forall k :: k in records && k !in {keyForUser(user), keyForIdentifier(email)} ==> after[k] == records[k])
      && (user == "" && email == "" ==> after == records)
  {
    assert Trim("") == "";
  }
}
