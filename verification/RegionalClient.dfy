/**
 * The regional client (authfn/client/src/regional-client.ts): a cache from identifiers to regions, a
 * current region, and one retry when a region answers that the identifier lives elsewhere. The
 * servers are functions from a region to its answer; the time is a parameter of each call.
 */
module RegionalClient {
  import opened Text

  datatype Place = Place(
    user: Option<string>, regionId: string, authority: string, domain: Option<string>, continueLocally: bool,
    redirectTo: Option<string>)

  /** An answer: a success, the region-mismatch error with its details, or any other error. */
  datatype Reply<T> =
    | Ok(value: T)
    | Mismatch(regionId: Option<string>, authority: Option<string>, redirectTo: Option<string>, domain: Option<string>)
    | Failed(code: string)

  datatype Cached = Cached(
    identifier: string, regionId: string, authority: string, domain: Option<string>, cachedAt: int, expiresAt: int)

  /** What the options fix: the region to start with, how long entries last, how identifiers are normalised. */
  datatype Options = Options(defaultRegion: string, ttl: int, normalize: string -> string)

  /** The servers as one call sees them, the time at which it reads the cache and at which it writes. */
  datatype World<T> = World(
    lookup: (string, string) -> Reply<Place>, operate: (string, nat) -> Reply<T>, now: int, later: int)

  datatype State = State(current: string, cache: map<string, Cached>)

  // ---- Answers ----

  /** The region that a mismatch names, when it names one and says how to reach it. */
  function RegionFromMismatch<T>(identifier: string, reply: Reply<T>, at: int, ttl: int): Option<Cached> {
    if !reply.Mismatch? then None
    else
      var authority := if reply.authority.Some? then reply.authority else reply.redirectTo;
      if reply.regionId in [None, Some("")] || authority in [None, Some("")] then None
      else Some(Cached(identifier, reply.regionId.value, authority.value, reply.domain, at, at + ttl))
  }

  function FromPlace(identifier: string, place: Place, at: int, ttl: int): Cached {
    Cached(identifier, place.regionId, place.authority, place.domain, at, at + ttl)
  }

  function Save(s: State, entry: Cached): State {
    s.(cache := s.cache[entry.identifier := entry])
  }

  function Forget(s: State, identifier: string): State {
    s.(cache := s.cache - {identifier})
  }

  // ---- What the operations do to the state ----

  /** The cached entry that may be used. */
  predicate Usable(s: State, identifier: string, now: int) {
    identifier in s.cache && s.cache[identifier].expiresAt > now
  }

  function Resolve<T>(o: Options, w: World<T>, s: State, input: string, force: bool): (State, Option<Cached>) {
    var id := o.normalize(input);
    if !force && Usable(s, id, w.now) then (s, Some(s.cache[id]))
    else
      var reply := w.lookup(s.current, id);
      if reply.Ok? then
        var entry := FromPlace(id, reply.value, w.later, o.ttl);
        (Save(s, entry), Some(entry))
      else
        var named := RegionFromMismatch(id, reply, w.later, o.ttl);
        if named.Some? then (Save(s, named.value), named) else (Forget(s, id), None)
  }

  function FirstRegion<T>(o: Options, w: World<T>, s: State, input: string): string {
    var found := Resolve(o, w, s, input, false).1;
    if found.Some? then found.value.regionId else o.defaultRegion
  }

  function RunRetry<T>(o: Options, w: World<T>, s: State, input: string): (State, Reply<T>, seq<string>) {
    var t := Resolve(o, w, s, input, false).0;
    var region := FirstRegion(o, w, s, input);
    var reply := w.operate(region, 0);
    var named := RegionFromMismatch(o.normalize(input), reply, w.later, o.ttl);
    if named.None? then (t.(current := region), reply, [region])
    else
      var next := named.value.regionId;
      (Save(t, named.value).(current := next), w.operate(next, 1), [region, next])
  }

  function LookupCurrent<T>(o: Options, w: World<T>, s: State, input: string): (State, Reply<Place>, seq<string>) {
    var id := o.normalize(input);
    var reply := w.lookup(s.current, id);
    if reply.Ok? then (Save(s, FromPlace(id, reply.value, w.later, o.ttl)), reply, [s.current])
    else
      var named := RegionFromMismatch(id, reply, w.later, o.ttl);
      if named.None? then (Forget(s, id), reply, [s.current])
      else
        var next := named.value.regionId;
        var retry := w.lookup(next, id);
        var saved := Save(s, named.value);
        (if retry.Ok? then Save(saved, FromPlace(id, retry.value, w.later, o.ttl)) else saved, retry, [s.current, next])
  }

  datatype Flow = SignIn | SignUp | Reset

  datatype Prepared = Refused(reply: Reply<Place>) | AccountExists(place: Place) | Go(selected: string, place: Place)

  function Prepare<T>(o: Options, w: World<T>, s: State, email: string, flow: Flow, preferred: string): (State, Prepared) {
    var start := if preferred != "" then s.(current := preferred) else s;
    var looked := LookupCurrent(o, w, start, o.normalize(email));
    if !looked.1.Ok? then (looked.0, Refused(looked.1))
    else
      var place := looked.1.value;
      if flow.SignUp? && (!(place.user in [None, Some("")]) || !place.continueLocally) then (looked.0, AccountExists(place))
      else (if flow.SignUp? then looked.0 else looked.0.(current := place.regionId), Go(start.current, place))
  }

  /** The one call of a sign-up, after it was prepared. */
  function AfterSignUp<T>(o: Options, w: World<T>, s: State, email: string): State {
    var named := RegionFromMismatch(o.normalize(email), w.operate(s.current, 0), w.later, o.ttl);
    if named.Some? then Save(s, named.value) else s
  }

  // ---- The client ----

  class Client<T> {
    const options: Options
    var current: string
    var cache: map<string, Cached>
    /** The regions for which a client was made. */
    var clients: set<string>
    /** The regions that operations, as opposed to lookups, were sent to. */
    ghost var asked: seq<string>
    /** The regions that lookups were sent to. */
    ghost var searched: seq<string>

    ghost function View(): State
      reads this
    {
      State(current, cache)
    }

    constructor (options: Options, storage: map<string, Cached>)
      ensures this.options == options && View() == State(options.defaultRegion, storage) && asked == searched == []
    {
      this.options := options;
      current := options.defaultRegion;
      cache := storage;
      clients := {};
      asked, searched := [], [];
    }

    method ClientFor(region: string)
      modifies this`clients
      ensures clients == old(clients) + {region}
    {
      clients := clients + {region};
    }

    method SaveRegion(entry: Cached, at: int)
      modifies this`cache
      ensures cache == old(cache)[entry.identifier := entry.(cachedAt := at, expiresAt := at + options.ttl)]
    {
      cache := cache[entry.identifier := entry.(cachedAt := at, expiresAt := at + options.ttl)];
    }

    method Lookup(w: World<T>, region: string, id: string) returns (reply: Reply<Place>)
      modifies this`clients, this`searched
      ensures reply == w.lookup(region, id) && searched == old(searched) + [region]
    {
      ClientFor(region);
      searched := searched + [region];
      reply := w.lookup(region, id);
    }

    method Operate(w: World<T>, region: string, n: nat) returns (reply: Reply<T>)
      modifies this`clients, this`asked
      ensures reply == w.operate(region, n) && asked == old(asked) + [region]
    {
      ClientFor(region);
      asked := asked + [region];
      reply := w.operate(region, n);
    }

    method ResolveRegion(w: World<T>, input: string, force: bool) returns (found: Option<Cached>)
      modifies this
      ensures (View(), found) == Resolve(options, w, old(View()), input, force) && asked == old(asked)
      ensures View() == Step(options, old(View()), DoResolve(w, input, force))
      ensures searched == old(searched)
                          + if !force && Usable(old(View()), options.normalize(input), w.now) then [] else [old(current)]
    {
      var id := options.normalize(input);
      if !force {
        if id in cache && cache[id].expiresAt > w.now {
          return Some(cache[id]);
        }
      }
      var reply := Lookup(w, current, id);
      if !reply.Ok? {
        found := RegionFromMismatch(id, reply, w.later, options.ttl);
        if found.Some? {
          SaveRegion(found.value, w.later);
          return;
        }
        cache := cache - {id};
        return None;
      }
      found := Some(FromPlace(id, reply.value, w.later, options.ttl));
      SaveRegion(found.value, w.later);
    }

    method RegionIdForIdentifier(w: World<T>, input: string) returns (region: string)
      modifies this
      ensures View() == Resolve(options, w, old(View()), input, false).0
      ensures region == FirstRegion(options, w, old(View()), input) && asked == old(asked)
    {
      var found := ResolveRegion(w, input, false);
      region := if found.Some? then found.value.regionId else options.defaultRegion;
    }

    method RunWithRegionRetry(w: World<T>, input: string) returns (reply: Reply<T>)
      modifies this
      ensures (View(), reply) == (RunRetry(options, w, old(View()), input).0, RunRetry(options, w, old(View()), input).1)
      ensures asked == old(asked) + RunRetry(options, w, old(View()), input).2
      ensures View() == Step(options, old(View()), DoRun(w, input))
    {
      var region := RegionIdForIdentifier(w, input);
      reply := Operate(w, region, 0);
      var named := RegionFromMismatch(options.normalize(input), reply, w.later, options.ttl);
      if named.None? || reply.Ok? {
        current := region;
        return;
      }
      SaveRegion(named.value, w.later);
      region := named.value.regionId;
      current := region;
      reply := Operate(w, region, 1);
    }

    method LookupCurrentRegion(w: World<T>, input: string) returns (reply: Reply<Place>)
      modifies this
      ensures View() == LookupCurrent(options, w, old(View()), input).0
      ensures reply == LookupCurrent(options, w, old(View()), input).1 && asked == old(asked)
      ensures searched == old(searched) + LookupCurrent(options, w, old(View()), input).2
      ensures View() == Step(options, old(View()), DoLookup(w, input))
    {
      var id := options.normalize(input);
      reply := Lookup(w, current, id);
      if !reply.Ok? {
        var named := RegionFromMismatch(id, reply, w.later, options.ttl);
        if named.Some? {
          SaveRegion(named.value, w.later);
          reply := Lookup(w, named.value.regionId, id);
          if reply.Ok? {
            SaveRegion(FromPlace(id, reply.value, w.later, options.ttl), w.later);
          }
        } else {
          cache := cache - {id};
        }
        return;
      }
      SaveRegion(FromPlace(id, reply.value, w.later, options.ttl), w.later);
    }

    method PrepareEmailAuth(w: World<T>, email: string, flow: Flow, preferred: string) returns (r: Prepared)
      modifies this
      ensures (View(), r) == Prepare(options, w, old(View()), email, flow, preferred) && asked == old(asked)
      ensures View() == Step(options, old(View()), DoPrepare(w, email, flow, preferred))
    {
      if preferred != "" {
        current := preferred;
      }
      var selected := current;
      var reply := LookupCurrentRegion(w, options.normalize(email));
      if !reply.Ok? {
        return Refused(reply);
      }
      var place := reply.value;
      if flow.SignUp? && (!(place.user in [None, Some("")]) || !place.continueLocally) {
        return AccountExists(place);
      }
      if !flow.SignUp? {
        current := place.regionId;
      }
      r := Go(selected, place);
    }

    method SignUpWithPassword(w: World<T>, email: string) returns (r: Prepared, reply: Option<Reply<T>>)
      modifies this
      ensures
        var (t, p) := Prepare(options, w, old(View()), email, SignUp, "");
        r == p
        && View() == (if p.Go? then AfterSignUp(options, w, t, email) else t)
        && reply == (if p.Go? then Some(w.operate(t.current, 0)) else None)
        && asked == old(asked) + if p.Go? then [t.current] else []
      ensures View() == Step(options, old(View()), DoSignUp(w, email))
    {
      reply := None;
      r := PrepareEmailAuth(w, email, SignUp, "");
      if !r.Go? {
        return;
      }
      var answer := Operate(w, current, 0);
      var named := RegionFromMismatch(options.normalize(email), answer, w.later, options.ttl);
      if named.Some? {
        SaveRegion(named.value, w.later);
      }
      reply := Some(answer);
    }

    method ClearRegion(input: string)
      modifies this`cache
      ensures View() == Forget(old(View()), options.normalize(input))
      ensures View() == Step<T>(options, old(View()), DoClear(input))
    {
      cache := cache - {options.normalize(input)};
    }
  }

  // ---- The retry finds home ----

  /** Every region but the identifier's home answers operations with a mismatch that names it. */
  ghost predicate LivesIn<T(!new)>(w: World<T>, home: string) {
    && home != ""
    && (forall n :: !w.operate(home, n).Mismatch?)
    && (forall r, n :: r != home ==> Names(w.operate(r, n), home))
  }

  predicate Names<T>(reply: Reply<T>, home: string) {
    reply.Mismatch? && reply.regionId == Some(home)
    && (if reply.authority.Some? then reply.authority else reply.redirectTo) !in [None, Some("")]
  }

  /**
   * Whatever the cache holds and whatever lookups say: at most two calls, the last one to home, whose
   * answer is returned; the current region is home; and if there was a mismatch, home is cached.
   */
  lemma RetryFindsHome<T(!new)>(o: Options, w: World<T>, s: State, input: string, home: string)
    requires LivesIn(w, home)
    ensures
      var (t, reply, calls) := RunRetry(o, w, s, input);
      var id := o.normalize(input);
      && t.current == home
      && (calls == [home] || (|calls| == 2 && calls[0] != home && calls[1] == home))
      && reply == w.operate(home, |calls| - 1)
      && (|calls| == 2 ==> id in t.cache && t.cache[id].regionId == home && t.cache[id].expiresAt == w.later + o.ttl)
  {
    var region := FirstRegion(o, w, s, input);
    hide Resolve, FirstRegion;
    assert region != home ==> Names(w.operate(region, 0), home);
  }

  /** Until the entry expires, the next call for the same identifier goes straight home. */
  lemma NextCallGoesHome<T(!new)>(o: Options, w: World<T>, v: World<T>, s: State, input: string, again: string, home: string)
    requires LivesIn(w, home) && LivesIn(v, home)
    requires o.normalize(again) == o.normalize(input)
    requires |RunRetry(o, w, s, input).2| == 2 && v.now < w.later + o.ttl
    ensures
      var t := RunRetry(o, w, s, input).0;
      RunRetry(o, v, t, again).2 == [home] && RunRetry(o, v, t, again).0 == t
  {
    var t := RunRetry(o, w, s, input).0;
    RetryFindsHome(o, w, s, input, home);
    hide RunRetry;
    assert Usable(t, o.normalize(again), v.now);
    RetryFindsHome(o, v, t, again, home);
    assert Resolve(o, v, t, again, false) == (t, Some(t.cache[o.normalize(again)]));
    FirstCall(o, v, t, again);
  }

  lemma FirstCall<T>(o: Options, w: World<T>, s: State, input: string)
    ensures
      var (t, reply, calls) := RunRetry(o, w, s, input);
      && calls != [] && calls[0] == FirstRegion(o, w, s, input)
      && (|calls| == 1 ==> t == Resolve(o, w, s, input, false).0.(current := calls[0]))
  {
    hide Resolve, FirstRegion, RegionFromMismatch;
  }

  /** The same for lookups: every other region names home, and home answers for itself. */
  ghost predicate FoundIn<T>(w: World<T>, id: string, home: string) {
    && home != ""
    && w.lookup(home, id).Ok? && w.lookup(home, id).value.regionId == home
    && forall r :: r != home ==> Names(w.lookup(r, id), home)
  }

  lemma LookupFindsHome<T>(o: Options, w: World<T>, s: State, input: string, home: string)
    requires FoundIn(w, o.normalize(input), home)
    ensures
      var (t, reply, calls) := LookupCurrent(o, w, s, input);
      var id := o.normalize(input);
      && reply == w.lookup(home, id)
      && (if s.current == home then calls == [home] else calls == [s.current, home])
      && id in t.cache && t.cache[id].regionId == home && t.current == s.current
  {
    var id := o.normalize(input);
    assert s.current != home ==> Names(w.lookup(s.current, id), home);
  }

  /** After it is prepared, a sign-in is at home; a sign-up stays, and only when there is no account. */
  lemma PreparedAtHome<T>(o: Options, w: World<T>, s: State, email: string, flow: Flow, preferred: string, home: string)
    requires o.normalize(o.normalize(email)) == o.normalize(email)
    requires FoundIn(w, o.normalize(email), home)
    ensures
      var (t, r) := Prepare(o, w, s, email, flow, preferred);
      var place := w.lookup(home, o.normalize(email)).value;
      var selected := if preferred != "" then preferred else s.current;
      && (!flow.SignUp? ==> t.current == home && r == Go(selected, place))
      && (flow.SignUp? ==>
            t.current == selected
            && r == (if place.user in [None, Some("")] && place.continueLocally then Go(selected, place) else AccountExists(place)))
  {
    var start := if preferred != "" then s.(current := preferred) else s;
    LookupFindsHome(o, w, start, o.normalize(email), home);
    hide LookupCurrent;
  }

  // ---- What every run keeps ----

  datatype Action<!T> =
    | DoResolve(w: World<T>, input: string, force: bool)
    | DoRun(w: World<T>, input: string)
    | DoLookup(w: World<T>, input: string)
    | DoPrepare(w: World<T>, input: string, flow: Flow, preferred: string)
    | DoSignUp(w: World<T>, input: string)
    | DoClear(input: string)
    | DoSetCurrent(region: string)

  function Step<T>(o: Options, s: State, a: Action<T>): State {
    match a
    case DoResolve(w, input, force) => Resolve(o, w, s, input, force).0
    case DoRun(w, input) => RunRetry(o, w, s, input).0
    case DoLookup(w, input) => LookupCurrent(o, w, s, input).0
    case DoPrepare(w, input, flow, preferred) => Prepare(o, w, s, input, flow, preferred).0
    case DoSignUp(w, input) =>
      var (t, p) := Prepare(o, w, s, input, SignUp, "");
      if p.Go? then AfterSignUp(o, w, t, input) else t
    case DoClear(input) => Forget(s, o.normalize(input))
    case DoSetCurrent(region) => s.(current := region)
  }

  function Run<T>(o: Options, s: State, actions: seq<Action<T>>): State {
    if actions == [] then s else Step(o, Run(o, s, actions[..|actions| - 1]), actions[|actions| - 1])
  }

  /** Keys are normalised and are their entries' identifiers, and entries last as long as they should. */
  predicate Clean(o: Options, cache: map<string, Cached>) {
    forall key :: key in cache ==>
      o.normalize(key) == key && cache[key].identifier == key && cache[key].expiresAt == cache[key].cachedAt + o.ttl
  }

  ghost predicate Idempotent(normalize: string -> string) {
    forall x :: normalize(normalize(x)) == normalize(x)
  }

  /** The cache stays clean and differs only in the entry of one identifier. */
  ghost predicate OnlyAt(o: Options, s: State, t: State, id: string) {
    && (Clean(o, s.cache) ==> Clean(o, t.cache))
    && (forall key :: key != id ==>
          (key in t.cache <==> key in s.cache) && (key in s.cache ==> t.cache[key] == s.cache[key]))
  }

  lemma SaveOnly(o: Options, s: State, entry: Cached)
    requires o.normalize(entry.identifier) == entry.identifier && entry.expiresAt == entry.cachedAt + o.ttl
    ensures OnlyAt(o, s, Save(s, entry), entry.identifier)
  {
  }

  lemma ForgetOnly(o: Options, s: State, id: string)
    ensures OnlyAt(o, s, Forget(s, id), id)
  {
  }

  lemma OnlyAtTwice(o: Options, s: State, t: State, u: State, id: string)
    requires OnlyAt(o, s, t, id) && OnlyAt(o, t, u, id)
    ensures OnlyAt(o, s, u, id)
  {
    hide Clean;
  }

  lemma CurrentOnly(o: Options, s: State, t: State, id: string, region: string)
    requires OnlyAt(o, s, t, id)
    ensures OnlyAt(o, s, t.(current := region), id)
  {
    hide Clean;
  }

  /** An answer that names a region is saved. */
  lemma NamedOnly<T>(o: Options, s: State, id: string, reply: Reply<T>, at: int)
    requires o.normalize(id) == id && RegionFromMismatch(id, reply, at, o.ttl).Some?
    ensures OnlyAt(o, s, Save(s, RegionFromMismatch(id, reply, at, o.ttl).value), id)
  {
    SaveOnly(o, s, RegionFromMismatch(id, reply, at, o.ttl).value);
    hide OnlyAt, Save;
  }

  lemma ResolveOnly<T>(o: Options, w: World<T>, s: State, input: string, force: bool)
    requires Idempotent(o.normalize)
    ensures OnlyAt(o, s, Resolve(o, w, s, input, force).0, o.normalize(input))
  {
    var id := o.normalize(input);
    var reply := w.lookup(s.current, id);
    ForgetOnly(o, s, id);
    CurrentOnly(o, s, s, id, s.current);
    hide RegionFromMismatch, Save, Forget, OnlyAt;
    if reply.Ok? {
      SaveOnly(o, s, FromPlace(id, reply.value, w.later, o.ttl));
    } else if RegionFromMismatch(id, reply, w.later, o.ttl).Some? {
      NamedOnly(o, s, id, reply, w.later);
    }
  }

  lemma RunOnly<T>(o: Options, w: World<T>, s: State, input: string)
    requires Idempotent(o.normalize)
    ensures OnlyAt(o, s, RunRetry(o, w, s, input).0, o.normalize(input))
  {
    var id := o.normalize(input);
    var t := Resolve(o, w, s, input, false).0;
    var region := FirstRegion(o, w, s, input);
    var reply := w.operate(region, 0);
    var named := RegionFromMismatch(id, reply, w.later, o.ttl);
    ResolveOnly(o, w, s, input, false);
    hide RegionFromMismatch, Resolve, FirstRegion, OnlyAt, Save;
    if named.Some? {
      NamedOnly(o, t, id, reply, w.later);
      OnlyAtTwice(o, s, t, Save(t, named.value), id);
      CurrentOnly(o, s, Save(t, named.value), id, named.value.regionId);
    } else {
      CurrentOnly(o, s, t, id, region);
    }
  }

  lemma LookupOnly<T>(o: Options, w: World<T>, s: State, input: string)
    requires Idempotent(o.normalize)
    ensures OnlyAt(o, s, LookupCurrent(o, w, s, input).0, o.normalize(input))
  {
    var id := o.normalize(input);
    var reply := w.lookup(s.current, id);
    var named := RegionFromMismatch(id, reply, w.later, o.ttl);
    ForgetOnly(o, s, id);
    hide RegionFromMismatch, Save, Forget, OnlyAt;
    if reply.Ok? {
      SaveOnly(o, s, FromPlace(id, reply.value, w.later, o.ttl));
    } else if named.Some? {
      NamedOnly(o, s, id, reply, w.later);
      var saved, retry := Save(s, named.value), w.lookup(named.value.regionId, id);
      if retry.Ok? {
        var entry := FromPlace(id, retry.value, w.later, o.ttl);
        SaveOnly(o, saved, entry);
        OnlyAtTwice(o, s, saved, Save(saved, entry), id);
      }
    }
  }

  lemma PrepareOnly<T>(o: Options, w: World<T>, s: State, email: string, flow: Flow, preferred: string)
    requires Idempotent(o.normalize)
    ensures OnlyAt(o, s, Prepare(o, w, s, email, flow, preferred).0, o.normalize(email))
  {
    var id := o.normalize(email);
    var start := if preferred != "" then s.(current := preferred) else s;
    CurrentOnly(o, s, s, id, start.current);
    LookupOnly(o, w, start, id);
    var looked := LookupCurrent(o, w, start, id);
    hide LookupCurrent, OnlyAt;
    OnlyAtTwice(o, s, start, looked.0, id);
    if looked.1.Ok? {
      CurrentOnly(o, s, looked.0, id, looked.1.value.regionId);
    }
  }

  lemma SignUpOnly<T>(o: Options, w: World<T>, s: State, email: string)
    requires Idempotent(o.normalize)
    ensures OnlyAt(o, s, AfterSignUp(o, w, s, email), o.normalize(email))
  {
    if RegionFromMismatch(o.normalize(email), w.operate(s.current, 0), w.later, o.ttl).Some? {
      NamedOnly(o, s, o.normalize(email), w.operate(s.current, 0), w.later);
    }
    hide RegionFromMismatch, Save;
  }

  /** A call touches the entry of its own identifier only, and keeps the cache clean. */
  lemma StepOnly<T>(o: Options, s: State, a: Action<T>)
    requires Idempotent(o.normalize)
    ensures OnlyAt(o, s, Step(o, s, a), if a.DoSetCurrent? then "" else o.normalize(a.input))
    ensures a.DoSetCurrent? ==> Step(o, s, a).cache == s.cache
  {
    hide Resolve, RunRetry, LookupCurrent, Prepare, AfterSignUp, Forget;
    match a
    case DoResolve(w, input, force) => ResolveOnly(o, w, s, input, force);
    case DoRun(w, input) => RunOnly(o, w, s, input);
    case DoLookup(w, input) => LookupOnly(o, w, s, input);
    case DoPrepare(w, input, flow, preferred) => PrepareOnly(o, w, s, input, flow, preferred);
    case DoSignUp(w, input) =>
      var t := Prepare(o, w, s, input, SignUp, "").0;
      PrepareOnly(o, w, s, input, SignUp, "");
      SignUpOnly(o, w, t, input);
      OnlyAtTwice(o, s, t, AfterSignUp(o, w, t, input), o.normalize(input));
    case DoClear(input) => ForgetOnly(o, s, o.normalize(input));
    case DoSetCurrent(region) => CurrentOnly(o, s, s, "", region);
  }

  /** Over every sequence of calls, from a clean cache, whatever the servers answer and the clock says. */
  lemma {:induction false} RunKeepsClean<T>(o: Options, s: State, actions: seq<Action<T>>)
    requires Clean(o, s.cache) && Idempotent(o.normalize)
    ensures Clean(o, Run(o, s, actions).cache)
  {
    if actions != [] {
      RunKeepsClean(o, s, actions[..|actions| - 1]);
      hide Step;
      StepOnly(o, Run(o, s, actions[..|actions| - 1]), actions[|actions| - 1]);
    }
  }

  // ---- Where the entries come from ----

  /** The entry is what the server of this region answered to a lookup. */
  predicate FromLookup<T>(o: Options, w: World<T>, id: string, entry: Cached, region: string) {
    var reply := w.lookup(region, id);
    || (reply.Ok? && entry == FromPlace(id, reply.value, w.later, o.ttl))
    || RegionFromMismatch(id, reply, w.later, o.ttl) == Some(entry)
  }

  /** The entry is what the server of this region named in its answer to the first call of an operation. */
  predicate FromCall<T>(o: Options, w: World<T>, id: string, entry: Cached, region: string) {
    RegionFromMismatch(id, w.operate(region, 0), w.later, o.ttl) == Some(entry)
  }

  /** A lookup that starts at this region, and goes on to the region that its answer names, got the entry. */
  predicate LookedUp<T>(o: Options, w: World<T>, id: string, entry: Cached, start: string) {
    || FromLookup(o, w, id, entry, start)
    || (var named := RegionFromMismatch(id, w.lookup(start, id), w.later, o.ttl);
        named.Some? && FromLookup(o, w, id, entry, named.value.regionId))
  }

  /** In this state, resolving asks the current region and gets the entry. */
  predicate Resolved<T>(o: Options, w: World<T>, s: State, id: string, force: bool, entry: Cached) {
    (force || !Usable(s, id, w.now)) && FromLookup(o, w, id, entry, s.current)
  }

  /** The call, made in this state, got the entry from a region that it asked, for its own identifier. */
  predicate Got<T>(o: Options, s: State, a: Action<T>, key: string, entry: Cached) {
    match a
    case DoResolve(w, input, force) => key == o.normalize(input) && Resolved(o, w, s, key, force, entry)
    case DoRun(w, input) =>
      key == o.normalize(input)
      && (Resolved(o, w, s, key, false, entry) || FromCall(o, w, key, entry, FirstRegion(o, w, s, input)))
    case DoLookup(w, input) => key == o.normalize(input) && LookedUp(o, w, key, entry, s.current)
    case DoPrepare(w, input, _, preferred) =>
      key == o.normalize(input) && LookedUp(o, w, key, entry, if preferred != "" then preferred else s.current)
    case DoSignUp(w, input) =>
      key == o.normalize(input) && (LookedUp(o, w, key, entry, s.current) || FromCall(o, w, key, entry, s.current))
    case _ => false
  }

  predicate Holds(s: State, key: string, entry: Cached) {
    key in s.cache && s.cache[key] == entry
  }

  lemma NamedIdentifier<T>(id: string, reply: Reply<T>, at: int, ttl: int)
    ensures var named := RegionFromMismatch(id, reply, at, ttl);
            named.Some? ==> named.value.identifier == id && named.value.cachedAt == at && named.value.expiresAt == at + ttl
  {
  }

  lemma ResolveGets<T>(o: Options, w: World<T>, s: State, input: string, force: bool)
    ensures
      var id := o.normalize(input);
      var (t, found) := Resolve(o, w, s, input, force);
      && (forall key :: key in t.cache ==>
            Holds(s, key, t.cache[key]) || (key == id && Resolved(o, w, s, id, force, t.cache[key])))
      && (found.Some? ==>
            || Resolved(o, w, s, id, force, found.value)
            || (!force && Usable(s, id, w.now) && Holds(s, id, found.value)))
  {
    NamedIdentifier(o.normalize(input), w.lookup(s.current, o.normalize(input)), w.later, o.ttl);
    hide RegionFromMismatch;
  }

  lemma RunGets<T>(o: Options, w: World<T>, s: State, input: string, key: string)
    requires key in RunRetry(o, w, s, input).0.cache
    ensures var entry := RunRetry(o, w, s, input).0.cache[key];
            Holds(s, key, entry) || Got(o, s, DoRun(w, input), key, entry)
  {
    ResolveGets(o, w, s, input, false);
    NamedIdentifier(o.normalize(input), w.operate(FirstRegion(o, w, s, input), 0), w.later, o.ttl);
    hide RegionFromMismatch, Resolve, FirstRegion, Resolved;
  }

  lemma LookupGets<T>(o: Options, w: World<T>, s: State, input: string, key: string)
    requires key in LookupCurrent(o, w, s, input).0.cache
    ensures var entry := LookupCurrent(o, w, s, input).0.cache[key];
            Holds(s, key, entry) || (key == o.normalize(input) && LookedUp(o, w, key, entry, s.current))
  {
    NamedIdentifier(o.normalize(input), w.lookup(s.current, o.normalize(input)), w.later, o.ttl);
    hide RegionFromMismatch;
  }

  lemma PrepareGets<T>(o: Options, w: World<T>, s: State, email: string, flow: Flow, preferred: string, key: string)
    requires Idempotent(o.normalize) && key in Prepare(o, w, s, email, flow, preferred).0.cache
    ensures var entry := Prepare(o, w, s, email, flow, preferred).0.cache[key];
            Holds(s, key, entry) || Got(o, s, DoPrepare(w, email, flow, preferred), key, entry)
  {
    LookupGets(o, w, if preferred != "" then s.(current := preferred) else s, o.normalize(email), key);
    hide LookupCurrent, LookedUp;
  }

  lemma SignUpGets<T>(o: Options, w: World<T>, s: State, input: string, key: string)
    requires Idempotent(o.normalize) && key in Step(o, s, DoSignUp(w, input)).cache
    ensures var entry := Step(o, s, DoSignUp(w, input)).cache[key];
            Holds(s, key, entry) || Got(o, s, DoSignUp(w, input), key, entry)
  {
    var t := Prepare(o, w, s, input, SignUp, "").0;
    SignUpStays(o, w, s, input);
    NamedIdentifier(o.normalize(input), w.operate(s.current, 0), w.later, o.ttl);
    if key in t.cache {
      PrepareGets(o, w, s, input, SignUp, "", key);
    }
    hide Prepare, LookedUp, RegionFromMismatch;
  }

  /** A sign-up prepares in the region in which it was. */
  lemma SignUpStays<T>(o: Options, w: World<T>, s: State, input: string)
    ensures Prepare(o, w, s, input, SignUp, "").0.current == s.current
  {
    hide RegionFromMismatch;
  }

  lemma StepGets<T>(o: Options, s: State, a: Action<T>, key: string)
    requires Idempotent(o.normalize) && key in Step(o, s, a).cache
    ensures Holds(s, key, Step(o, s, a).cache[key]) || Got(o, s, a, key, Step(o, s, a).cache[key])
  {
    hide Resolve, RunRetry, LookupCurrent, Prepare, AfterSignUp, LookedUp, Resolved;
    match a
    case DoResolve(w, input, force) => ResolveGets(o, w, s, input, force);
    case DoRun(w, input) => RunGets(o, w, s, input, key);
    case DoLookup(w, input) => LookupGets(o, w, s, input, key);
    case DoPrepare(w, input, flow, preferred) => PrepareGets(o, w, s, input, flow, preferred, key);
    case DoSignUp(w, input) => SignUpGets(o, w, s, input, key);
    case _ =>
  }

  /** The k-th call of a run got the entry from a region that it asked, and the cache has held it since. */
  ghost predicate HeldSince<T>(o: Options, s: State, actions: seq<Action<T>>, k: int, key: string, entry: Cached) {
    && 0 <= k < |actions| && Got(o, Run(o, s, actions[..k]), actions[k], key, entry)
    && forall j :: k < j <= |actions| ==> Holds(Run(o, s, actions[..j]), key, entry)
  }

  /** Every cached entry was in the storage at the start, or a call got it and the cache has held it since. */
  lemma {:induction false} EntriesAreAnswers<T>(o: Options, s: State, actions: seq<Action<T>>, key: string)
    requires Idempotent(o.normalize) && key in Run(o, s, actions).cache
    ensures
      var entry := Run(o, s, actions).cache[key];
      Holds(s, key, entry) || exists k :: HeldSince(o, s, actions, k, key, entry)
  {
    if actions != [] {
      var front, a := actions[..|actions| - 1], actions[|actions| - 1];
      var entry := Run(o, s, actions).cache[key];
      StepGets(o, Run(o, s, front), a, key);
      hide Step, Got;
      if Holds(Run(o, s, front), key, entry) {
        EntriesAreAnswers(o, s, front, key);
        if k :| HeldSince(o, s, front, k, key, entry) {
          HeldLonger(o, s, actions, k, key, entry);
        }
      } else {
        assert actions[..|actions|] == actions;
        assert HeldSince(o, s, actions, |actions| - 1, key, entry);
      }
    }
  }

  lemma {:induction false} HeldLonger<T>(o: Options, s: State, actions: seq<Action<T>>, k: int, key: string, entry: Cached)
    requires actions != [] && HeldSince(o, s, actions[..|actions| - 1], k, key, entry)
    requires Holds(Run(o, s, actions), key, entry)
    ensures HeldSince(o, s, actions, k, key, entry)
  {
    hide Run, Got, Holds;
    var front := actions[..|actions| - 1];
    assert actions[..|actions|] == actions;
    assert forall j :: 0 <= j <= |front| ==> front[..j] == actions[..j];
    assert actions[k] == front[k];
  }

  /**
   * After every run, the region that a call is given was answered by a server that was asked: in this
   * call by that of the current region, or less than the lifetime of entries ago, in a call for the same
   * identifier whose entry has been in the cache since; or it came with the storage and has not expired.
   */
  lemma {:induction false} ExpiredIsNotUsed<T>(o: Options, w: World<T>, s: State, actions: seq<Action<T>>, input: string, force: bool)
    requires Idempotent(o.normalize)
    ensures
      var id, t := o.normalize(input), Run(o, s, actions);
      var found := Resolve(o, w, t, input, force).1;
      found.Some? ==>
        || Resolved(o, w, t, id, force, found.value)
        || (!force && exists k :: HeldSince(o, s, actions, k, id, found.value) && w.now < actions[k].w.later + o.ttl)
        || (!force && Holds(s, id, found.value) && w.now < found.value.expiresAt)
  {
    var id := o.normalize(input);
    var t := Run(o, s, actions);
    var found := Resolve(o, w, t, input, force).1;
    ResolveGets(o, w, t, input, force);
    hide Run, Resolve, Resolved;
    if found.Some? && !Resolved(o, w, t, id, force, found.value) {
      EntriesAreAnswers(o, s, actions, id);
      if k :| HeldSince(o, s, actions, k, id, found.value) {
        GotLasts(o, Run(o, s, actions[..k]), actions[k], id, found.value);
      }
    }
  }

  /** What a call got lasts from the time of its answer. */
  lemma GotLasts<T>(o: Options, s: State, a: Action<T>, id: string, entry: Cached)
    requires Got(o, s, a, id, entry)
    ensures !a.DoClear? && !a.DoSetCurrent?
    ensures entry.identifier == id && entry.cachedAt == a.w.later && entry.expiresAt == a.w.later + o.ttl
  {
    hide FirstRegion;
  }
}
