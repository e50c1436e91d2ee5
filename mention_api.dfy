/**
 * The debounced user lookups behind the mention menu. Every call adds a
 * waiter (a pending promise) to a table keyed by username; when a
 * scheduled run fires for a username, every waiter of that username
 * settles with the same outcome and the username's entry is removed.
 * Timers, promises and the network are abstracted: a run is an event that
 * receives the search outcome as a parameter.
 *
 * GitHub keeps one timer per username. Twitter uses a single debounced
 * function for all usernames, so a call for a second username before the
 * first one's run replaces that run.
 */
module MentionLookup {
  import opened Wrappers
  import opened MentionSuggest

  /** A pending promise, identified by the caller. */
  type Waiter = nat

  /** The outcome the search settles with: the normalised users, or a rejection. */
  datatype Settlement = Settlement(waiter: Waiter, outcome: LookupOutcome)

  /** `promises.forEach(({resolve}) => resolve(result))` (or `reject`): one settlement per waiter, in order, all alike. */
  function SettleAll(ws: seq<Waiter>, outcome: LookupOutcome): (r: seq<Settlement>)
    ensures |r| == |ws|
    ensures forall i :: 0 <= i < |ws| ==> r[i] == Settlement(ws[i], outcome)
  {
    if ws == [] then [] else [Settlement(ws[0], outcome)] + SettleAll(ws[1..], outcome)
  }

  /** `pendingX.get(username) || []` */
  function WaitersOf(table: map<string, seq<Waiter>>, username: string): seq<Waiter>
  {
    if username in table then table[username] else []
  }

  // -------------------------------------------------------------------
  // Normalisation of the search response
  // -------------------------------------------------------------------

  /** A user record as the endpoint returns it. */
  datatype ApiUser = ApiUser(
    id: string, userLabel: Option<string>, username: Option<string>, displayName: Option<string>,
    avatar: Option<string>, verified: Option<bool>)

  /** What `fetch` answered: a non-ok status, or an ok body whose `users` field may be missing. */
  datatype ApiResponse = NotOk | Ok(users: Option<seq<ApiUser>>)

  /** One user of the response as a menu item: `verified` becomes `false` when missing or false. */
  function Normalise(u: ApiUser): (item: MentionItem)
    ensures item.id == u.id && item.labelText == u.userLabel && item.username == u.username
    ensures item.displayName == u.displayName && item.avatar == u.avatar
    ensures item.verified == Some(u.verified == Some(true))
  {
    MentionItem(u.id, u.userLabel, u.username, u.displayName, u.avatar,
      Some(if u.verified.Some? then u.verified.value else false))
  }

  function NormaliseAll(us: seq<ApiUser>): (items: seq<MentionItem>)
    ensures |items| == |us|
    ensures forall i :: 0 <= i < |us| ==> items[i] == Normalise(us[i])
  {
    if us == [] then [] else [Normalise(us[0])] + NormaliseAll(us[1..])
  }

  /** `searchTwitterUsers` / `searchGitHubUsers` after the fetch: a non-ok response gives no users. */
  function SearchResult(response: ApiResponse): (items: seq<MentionItem>)
    ensures response.NotOk? ==> items == []
    ensures response.Ok? && response.users.None? ==> items == []
    ensures response.Ok? && response.users.Some? ==> |items| == |response.users.value|
    ensures forall i :: 0 <= i < |items| ==> items[i].verified.Some?
  {
    match response
    case NotOk => []
    case Ok(users) => NormaliseAll(users.GetOr([]))
  }

  // -------------------------------------------------------------------
  // GitHub: one timer per username
  // -------------------------------------------------------------------

  /**
   * `pendingGitHubPromises` and `githubDebounceTimers`. A timer is named
   * by the number `setTimeout` returned.
   */
  class KeyedDebounce {
    var waiters: map<string, seq<Waiter>>
    var timers: map<string, nat>
    var nextTimer: nat

    /** No waiter is stranded and no timer idles: exactly the usernames with waiters have a timer. */
    ghost predicate Valid()
      reads this
    {
      waiters.Keys == timers.Keys && (forall u :: u in waiters ==> waiters[u] != [])
    }

    constructor()
      ensures Valid() && waiters == map[] && timers == map[]
    {
      waiters := map[];
      timers := map[];
      nextTimer := 1;
    }

    /**
     * `debouncedGitHubSearch(username)`: clears the username's timer, if
     * any, appends the new waiter and sets a fresh timer. Returns the
     * cleared timer.
     */
    method Call(username: string, w: Waiter) returns (cleared: Option<nat>)
      requires Valid()
      modifies this
      ensures Valid()
      ensures cleared == (if username in old(timers) then Some(old(timers)[username]) else None)
      ensures waiters == old(waiters)[username := WaitersOf(old(waiters), username) + [w]]
      ensures timers == old(timers)[username := old(nextTimer)]
      ensures nextTimer == old(nextTimer) + 1
    {
      cleared := None;
      if username in timers {
        cleared := Some(timers[username]);
        timers := timers - {username};
      }
      var promises := WaitersOf(waiters, username) + [w];
      waiters := waiters[username := promises];
      timers := timers[username := nextTimer];
      nextTimer := nextTimer + 1;
    }

    /**
     * The username's timer fires: with no waiters it only forgets the
     * timer; otherwise every waiter settles with the outcome, in the order
     * they called, and both entries are removed.
     */
    method Fire(username: string, outcome: LookupOutcome) returns (settled: seq<Settlement>)
      requires Valid()
      modifies this
      ensures Valid()
      ensures settled == SettleAll(WaitersOf(old(waiters), username), outcome)
      ensures waiters == old(waiters) - {username} && timers == old(timers) - {username}
      ensures nextTimer == old(nextTimer)
    {
      var current := WaitersOf(waiters, username);
      settled := [];
      if current == [] {
        assert username !in waiters;
        timers := timers - {username};
        return;
      }
      var i := 0;
      while i < |current|
        invariant 0 <= i <= |current|
        invariant settled == SettleAll(current[..i], outcome)
        invariant waiters == old(waiters) && timers == old(timers) && nextTimer == old(nextTimer)
      {
        SettleAllSnoc(current[..i], current[i], outcome);
        assert current[..i + 1] == current[..i] + [current[i]];
        settled := settled + [Settlement(current[i], outcome)];
        i := i + 1;
      }
      assert current[..i] == current;
      waiters := waiters - {username};
      timers := timers - {username};
    }
  }

  lemma {:induction false} SettleAllSnoc(ws: seq<Waiter>, w: Waiter, outcome: LookupOutcome)
    ensures SettleAll(ws + [w], outcome) == SettleAll(ws, outcome) + [Settlement(w, outcome)]
  {
    if ws != [] {
      SettleAllSnoc(ws[1..], w, outcome);
      assert (ws + [w])[1..] == ws[1..] + [w];
    } else {
      assert ws + [w] == [w];
    }
  }

  /** Calls for one username leave every other username's entry as it was. */
  method KeyedCallsAreIndependent(d: KeyedDebounce, a: string, b: string, w: Waiter)
    requires d.Valid() && a != b
    modifies d
    ensures d.Valid()
    ensures WaitersOf(d.waiters, b) == WaitersOf(old(d.waiters), b)
    ensures (b in d.timers) == (b in old(d.timers))
  {
    var _ := d.Call(a, w);
  }

  // -------------------------------------------------------------------
  // Twitter: one debounced function for every username
  // -------------------------------------------------------------------

  /**
   * `pendingTwitterPromises` and the single debounced function: the
   * debounce remembers only the arguments of the latest call since its
   * last run.
   */
  class SharedDebounce {
    var waiters: map<string, seq<Waiter>>
    var scheduled: Option<string>

    /** The intended invariant: every username with waiters is the one the pending run is for. */
    ghost predicate NoneStranded()
      reads this
    {
      forall u :: u in waiters && waiters[u] != [] ==> scheduled == Some(u)
    }

    constructor()
      ensures waiters == map[] && scheduled == None && NoneStranded()
    {
      waiters := map[];
      scheduled := None;
    }

    /** `debouncedTwitterSearch(username)`: appends the waiter and (re)schedules the run, now for this username. */
    method Call(username: string, w: Waiter)
      modifies this
      ensures waiters == old(waiters)[username := WaitersOf(old(waiters), username) + [w]]
      ensures scheduled == Some(username)
    {
      waiters := waiters[username := WaitersOf(waiters, username) + [w]];
      scheduled := Some(username);
    }

    /** The debounced run fires for the username of the latest call. */
    method Fire(outcome: LookupOutcome) returns (settled: seq<Settlement>)
      requires scheduled.Some?
      modifies this
      ensures var u := old(scheduled).value;
        settled == SettleAll(WaitersOf(old(waiters), u), outcome) &&
        waiters == (if WaitersOf(old(waiters), u) == [] then old(waiters) else old(waiters) - {u})
      ensures scheduled == None
    {
      var u := scheduled.value;
      scheduled := None;
      var current := WaitersOf(waiters, u);
      if current == [] {
        settled := [];
        return;
      }
      settled := SettleAll(current, outcome);
      waiters := waiters - {u};
    }
  }

  /**
   * Two handles typed within one debounce window: the run settles only
   * the second handle's waiter; the first handle's waiter is left pending
   * with no run scheduled to settle it.
   */
  method StrandedWaiterExample() returns (d: SharedDebounce, settled: seq<Settlement>)
    ensures settled == [Settlement(2, Failed)]
    ensures d.waiters == map["alice" := [1]] && d.scheduled == None
    ensures !d.NoneStranded()
  {
    d := new SharedDebounce();
    d.Call("alice", 1);
    assert WaitersOf(map[], "alice") + [1] == [1];
    assert d.waiters == map["alice" := [1]];
    d.Call("bob", 2);
    assert WaitersOf(map["alice" := [1]], "bob") + [2] == [2];
    assert d.waiters == map["alice" := [1], "bob" := [2]];
    settled := d.Fire(Failed);
    assert d.waiters == map["alice" := [1], "bob" := [2]] - {"bob"};
    assert d.waiters == map["alice" := [1]];
    assert "alice" in d.waiters && d.waiters["alice"] != [];
  }

  /**
   * The keyed scheme, which the GitHub lookup uses, applied to the same
   * calls: both handles keep their own timer and each run settles its own
   * waiter.
   */
  method KeyedSchemeSettlesBoth() returns (d: KeyedDebounce, first: seq<Settlement>, second: seq<Settlement>)
    ensures first == [Settlement(1, Failed)] && second == [Settlement(2, Failed)]
    ensures d.Valid() && d.waiters == map[]
  {
    d := new KeyedDebounce();
    var _ := d.Call("alice", 1);
    var _ := d.Call("bob", 2);
    first := d.Fire("alice", Failed);
    second := d.Fire("bob", Failed);
    assert d.waiters.Keys == {};
  }
}
