/** What each call of the regional client comes to, by what the servers answer and what the cache holds. */
module RegionalOutcomes {
  import opened Text
  import opened RegionalClient

  /** The answer is a mismatch that names this region, and this address at which it is reached. */
  predicate NamesRegion<T>(reply: Reply<T>, region: string, authority: string) {
    && reply.Mismatch? && reply.regionId == Some(region) && region != "" && authority != ""
    && (reply.authority == Some(authority) || (reply.authority == None && reply.redirectTo == Some(authority)))
  }

  ghost predicate NamesNone<T>(reply: Reply<T>) {
    forall region, authority :: !NamesRegion(reply, region, authority)
  }

  /** A region is taken from an answer exactly if that names one, with the domain of the answer and the full lifetime. */
  lemma NamedExactly<T>(id: string, reply: Reply<T>, at: int, ttl: int)
    ensures NamesNone(reply) <==> RegionFromMismatch(id, reply, at, ttl) == None
    ensures forall region, authority :: NamesRegion(reply, region, authority) ==>
              RegionFromMismatch(id, reply, at, ttl) == Some(Cached(id, region, authority, reply.domain, at, at + ttl))
  {
    var named := RegionFromMismatch(id, reply, at, ttl);
    if named.Some? {
      var region, authority := named.value.regionId, named.value.authority;
      var reached := if reply.authority.Some? then reply.authority else reply.redirectTo;
      assert reached == Some(authority) && reached !in [None, Some("")];
      assert [None, Some("")][1] == Some("") && region != "" && authority != "";
      assert NamesRegion(reply, region, authority);
    }
  }

  // ---- Resolving ----

  /** A cached entry that has not expired answers, and nothing changes. */
  lemma ResolvedFromCache<T>(o: Options, w: World<T>, s: State, input: string)
    requires o.normalize(input) in s.cache && w.now < s.cache[o.normalize(input)].expiresAt
    ensures Resolve(o, w, s, input, false) == (s, Some(s.cache[o.normalize(input)]))
  {
  }

  /** The cache is not used when that is forced, or when it holds no entry, or one that has expired. */
  predicate Asks<T>(o: Options, w: World<T>, s: State, input: string, force: bool) {
    force || (o.normalize(input) in s.cache ==> s.cache[o.normalize(input)].expiresAt <= w.now)
  }

  /**
   * Otherwise the server of the current region is asked: what it answers, or the region that it names, is
   * cached; without either the entry is forgotten. The current region stays.
   */
  lemma ResolvedByServer<T>(o: Options, w: World<T>, s: State, input: string, force: bool)
    requires Asks(o, w, s, input, force)
    ensures
      var id := o.normalize(input);
      var (t, found) := Resolve(o, w, s, input, force);
      var reply := w.lookup(s.current, id);
      && t.current == s.current
      && (reply.Ok? ==>
            found == Some(Cached(id, reply.value.regionId, reply.value.authority, reply.value.domain, w.later, w.later + o.ttl)))
      && (forall region, authority :: NamesRegion(reply, region, authority) ==>
            found == Some(Cached(id, region, authority, reply.domain, w.later, w.later + o.ttl)))
      && (!reply.Ok? && NamesNone(reply) ==> found == None)
      && t.cache == if found.Some? then s.cache[id := found.value] else s.cache - {id}
  {
    var id := o.normalize(input);
    NamedExactly(id, w.lookup(s.current, id), w.later, o.ttl);
    hide RegionFromMismatch;
  }

  // ---- Calls with a retry ----

  /**
   * The first call goes to the region that was resolved, or to the default one. Only an answer that names a
   * region is not final: that region is cached, becomes current, and gives the final answer.
   */
  lemma RetryOutcomes<T>(o: Options, w: World<T>, s: State, input: string)
    ensures
      var id := o.normalize(input);
      var (resolved, found) := Resolve(o, w, s, input, false);
      var first := if found.Some? then found.value.regionId else o.defaultRegion;
      var answer := w.operate(first, 0);
      var (t, reply, calls) := RunRetry(o, w, s, input);
      && (NamesNone(answer) ==> reply == answer && calls == [first] && t == State(first, resolved.cache))
      && (forall region, authority :: NamesRegion(answer, region, authority) ==>
            && reply == w.operate(region, 1) && calls == [first, region] && t.current == region
            && t.cache == resolved.cache[id := Cached(id, region, authority, answer.domain, w.later, w.later + o.ttl)])
  {
    var found := Resolve(o, w, s, input, false).1;
    var first := if found.Some? then found.value.regionId else o.defaultRegion;
    NamedExactly(o.normalize(input), w.operate(first, 0), w.later, o.ttl);
    hide Resolve, RegionFromMismatch, NamesNone;
  }

  // ---- Lookups ----

  /** The entry that a lookup's answer gives. */
  function EntryOf(id: string, place: Place, at: int, ttl: int): Cached {
    Cached(id, place.regionId, place.authority, place.domain, at, at + ttl)
  }

  /**
   * A lookup returns the current region's answer, and caches or forgets accordingly, unless that names
   * another region: then the answer of that one is returned, whatever it is. The current region stays.
   */
  lemma LookupOutcomes<T>(o: Options, w: World<T>, s: State, input: string)
    ensures
      var id := o.normalize(input);
      var (t, reply, calls) := LookupCurrent(o, w, s, input);
      var answer := w.lookup(s.current, id);
      && t.current == s.current
      && (answer.Ok? ==>
            reply == answer && calls == [s.current] && t.cache == s.cache[id := EntryOf(id, answer.value, w.later, o.ttl)])
      && (!answer.Ok? && NamesNone(answer) ==> reply == answer && calls == [s.current] && t.cache == s.cache - {id})
      && (forall region, authority :: NamesRegion(answer, region, authority) ==>
            && reply == w.lookup(region, id) && calls == [s.current, region]
            && t.cache == s.cache[id := if reply.Ok? then EntryOf(id, reply.value, w.later, o.ttl)
                                        else Cached(id, region, authority, answer.domain, w.later, w.later + o.ttl)])
  {
    var id := o.normalize(input);
    NamedExactly(id, w.lookup(s.current, id), w.later, o.ttl);
    hide RegionFromMismatch, NamesNone;
    forall region, authority | NamesRegion(w.lookup(s.current, id), region, authority)
      ensures LookupCurrent(o, w, s, input).0.cache ==
              s.cache[id := if w.lookup(region, id).Ok? then EntryOf(id, w.lookup(region, id).value, w.later, o.ttl)
                            else Cached(id, region, authority, w.lookup(s.current, id).domain, w.later, w.later + o.ttl)]
    {
      var named := Cached(id, region, authority, w.lookup(s.current, id).domain, w.later, w.later + o.ttl);
      if w.lookup(region, id).Ok? {
        assert s.cache[id := named][id := EntryOf(id, w.lookup(region, id).value, w.later, o.ttl)]
            == s.cache[id := EntryOf(id, w.lookup(region, id).value, w.later, o.ttl)];
      }
    }
  }

  // ---- Email ----

  /** There is an account elsewhere, or no permission to sign up here. */
  predicate Taken(place: Place) {
    (place.user.Some? && place.user.value != "") || !place.continueLocally
  }

  /**
   * Preparing selects the preferred region if there is one. A failed lookup is returned. A sign-up is refused
   * exactly for a taken address and never leaves the selected region; everything else goes to the place found.
   */
  lemma PrepareOutcomes<T>(o: Options, w: World<T>, s: State, email: string, flow: Flow, preferred: string)
    ensures
      var selected := if preferred != "" then preferred else s.current;
      var (looked, reply, _) := LookupCurrent(o, w, State(selected, s.cache), o.normalize(email));
      var (t, r) := Prepare(o, w, s, email, flow, preferred);
      && t.cache == looked.cache
      && (!reply.Ok? ==> r == Refused(reply) && t.current == selected)
      && (reply.Ok? && flow == SignUp ==>
            t.current == selected && r == if Taken(reply.value) then AccountExists(reply.value) else Go(selected, reply.value))
      && (reply.Ok? && flow != SignUp ==> t.current == reply.value.regionId && r == Go(selected, reply.value))
  {
    var selected := if preferred != "" then preferred else s.current;
    assert (if preferred != "" then s.(current := preferred) else s) == State(selected, s.cache);
    LookupOutcomes(o, w, State(selected, s.cache), o.normalize(email));
    TakenExactly();
    hide LookupCurrent, NamesRegion, NamesNone, Taken;
  }

  lemma TakenExactly()
    ensures forall place :: Taken(place) <==> !(place.user in [None, Some("")]) || !place.continueLocally
  {
    assert [None, Some("")][1] == Some("");
  }

  /** A sign-up calls the selected region once, and caches the region that its answer names. */
  lemma SignUpOutcomes<T>(o: Options, w: World<T>, s: State, email: string)
    ensures
      var (t, p) := Prepare(o, w, s, email, SignUp, "");
      var u, answer, id := Step(o, s, DoSignUp(w, email)), w.operate(s.current, 0), o.normalize(email);
      && u.current == s.current
      && (!p.Go? || NamesNone(answer) ==> u.cache == t.cache)
      && (p.Go? ==> forall region, authority :: NamesRegion(answer, region, authority) ==>
            u.cache == t.cache[id := Cached(id, region, authority, answer.domain, w.later, w.later + o.ttl)])
  {
    var (t, p) := Prepare(o, w, s, email, SignUp, "");
    PrepareOutcomes(o, w, s, email, SignUp, "");
    assert t.current == s.current;
    NamedExactly(o.normalize(email), w.operate(s.current, 0), w.later, o.ttl);
    hide Prepare, LookupCurrent, RegionFromMismatch, NamesNone;
  }

  /** Clearing forgets one identifier and nothing else; the current region is what was set. */
  lemma ClearOutcomes<T>(o: Options, s: State, input: string, region: string)
    ensures
      var t := Step<T>(o, s, DoClear(input));
      && t.current == s.current
      && forall key :: (key in t.cache <==> key in s.cache && key != o.normalize(input)) && (key in t.cache ==> t.cache[key] == s.cache[key])
    ensures Step<T>(o, s, DoSetCurrent(region)) == State(region, s.cache)
  {
  }
}
