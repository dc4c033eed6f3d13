/**
 * The reward history resolver: decodes the `RewardClaimed` event logs of one user, orders them
 * newest day first, totals the amounts, and keeps the hook state that a fetch fills in, ignoring
 * fetches whose effect has been cleaned up.
 */
module RewardHistory {
  import opened Options
  import opened StableSort
  import opened Transactions

  /** The decoded `args` of one log; a field the decoder could not fill is missing. */
  datatype EventArgs = EventArgs(amount: Option<nat>, dayNumber: Option<nat>, newStreak: Option<nat>)

  /** One entry returned by `getLogs`; `args` itself may be missing. */
  datatype RawLog = RawLog(args: Option<EventArgs>, transactionHash: Hash)

  /** `RewardHistoryEntry`. */
  datatype Entry = Entry(amount: nat, dayNumber: nat, streak: nat, txHash: Hash)

  /** `log.args?.f ?? 0n`. */
  function ArgOr0(args: Option<EventArgs>, pick: EventArgs -> Option<nat>): (v: nat)
    ensures args.Some? && pick(args.value).Some? ==> v == pick(args.value).value
    ensures args.None? || pick(args.value).None? ==> v == 0
  {
    match args
    case None => 0
    case Some(a) => pick(a).GetOr(0)
  }

  function AmountArg(a: EventArgs): Option<nat> { a.amount }
  function DayNumberArg(a: EventArgs): Option<nat> { a.dayNumber }
  function NewStreakArg(a: EventArgs): Option<nat> { a.newStreak }

  /** Decodes one log: a malformed log still yields an entry, with its missing fields set to 0. */
  function DecodeLog(log: RawLog): (e: Entry)
    ensures e.txHash == log.transactionHash
    ensures log.args.None? ==> e.amount == 0 && e.dayNumber == 0 && e.streak == 0
    ensures log.args.Some? ==>
      (e.amount == log.args.value.amount.GetOr(0) && e.dayNumber == log.args.value.dayNumber.GetOr(0)
       && e.streak == log.args.value.newStreak.GetOr(0))
  {
    Entry(ArgOr0(log.args, AmountArg), ArgOr0(log.args, DayNumberArg), ArgOr0(log.args, NewStreakArg),
          log.transactionHash)
  }

  /** `logs.map(...)`: exactly one entry per log, in log order; nothing is dropped or merged. */
  function DecodeLogs(logs: seq<RawLog>): (r: seq<Entry>)
    ensures |r| == |logs|
    ensures forall i :: 0 <= i < |logs| ==> r[i] == DecodeLog(logs[i])
  {
    if logs == [] then [] else [DecodeLog(logs[0])] + DecodeLogs(logs[1..])
  }

  function DayOf(e: Entry): int {
    e.dayNumber
  }

  /**
   * `.sort((a, b) => Number(b.dayNumber - a.dayNumber))` of the decoded logs: a permutation of the
   * decoded entries, most recent day first.
   */
  function ResolveLogs(logs: seq<RawLog>): (history: seq<Entry>)
    ensures |history| == |logs|
    ensures multiset(history) == multiset(DecodeLogs(logs))
    ensures Descending(history, DayOf)
  {
    SortIsDescending(DecodeLogs(logs), DayOf);
    SortDescending(DecodeLogs(logs), DayOf)
  }

  /** Entries of one day keep the order of the logs: the sort is stable and has no tie-breaker. */
  lemma ResolveKeepsLogOrderWithinDay(logs: seq<RawLog>, day: int)
    ensures WithKey(ResolveLogs(logs), DayOf, day) == WithKey(DecodeLogs(logs), DayOf, day)
  {
    SortIsStable(DecodeLogs(logs), DayOf, day);
  }

  /** `history.reduce((total, entry) => total + entry.amount, 0n)`, an unbounded integer. */
  function TotalRewards(history: seq<Entry>): nat {
    if history == [] then 0 else TotalRewards(history[..|history| - 1]) + history[|history| - 1].amount
  }

  lemma {:induction false} TotalConcat(a: seq<Entry>, b: seq<Entry>)
    ensures TotalRewards(a + b) == TotalRewards(a) + TotalRewards(b)
  {
    if b == [] {
      assert a + b == a;
    } else {
      assert (a + b)[..|a + b| - 1] == a + b[..|b| - 1];
      TotalConcat(a, b[..|b| - 1]);
    }
  }

  /** Taking one entry out of a history lowers its total by that entry's amount. */
  lemma TotalWithout(t: seq<Entry>, i: nat)
    requires i < |t|
    ensures TotalRewards(t) == TotalRewards(t[..i] + t[i + 1..]) + t[i].amount
  {
    var left, x, right := t[..i], t[i], t[i + 1..];
    assert t == (left + [x]) + right;
    TotalConcat(left + [x], right);
    TotalConcat(left, [x]);
    TotalConcat(left, right);
    assert TotalRewards([x]) == x.amount by {
      assert [x][..0] == [];
    }
  }

  /** Taking the entry at `i` out of a history takes one copy of it out of its multiset. */
  lemma MultisetWithout(t: seq<Entry>, i: nat)
    requires i < |t|
    ensures multiset(t[..i] + t[i + 1..]) == multiset(t) - multiset{t[i]}
  {
    assert t == t[..i] + [t[i]] + t[i + 1..];
  }

  /** The lifetime total does not depend on the order of the entries. */
  lemma {:induction false} TotalIndependentOfOrder(s: seq<Entry>, t: seq<Entry>)
    requires multiset(s) == multiset(t)
    ensures TotalRewards(s) == TotalRewards(t)
    decreases |s|
  {
    if s == [] {
      assert |t| == |multiset(t)| == 0;
    } else {
      var last := |s| - 1;
      assert s[last] in multiset(t);
      var i :| 0 <= i < |t| && t[i] == s[last];
      MultisetWithout(s, last);
      MultisetWithout(t, i);
      assert s[..last] + s[last + 1..] == s[..last];
      TotalIndependentOfOrder(s[..last], t[..i] + t[i + 1..]);
      TotalWithout(t, i);
    }
  }

  /** The lifetime total is the sum of the decoded amounts, 0 when there are no logs. */
  lemma TotalOfResolved(logs: seq<RawLog>)
    ensures TotalRewards(ResolveLogs(logs)) == TotalRewards(DecodeLogs(logs))
    ensures logs == [] ==> TotalRewards(ResolveLogs(logs)) == 0
  {
    TotalIndependentOfOrder(ResolveLogs(logs), DecodeLogs(logs));
  }

  /** Claims on days 3, 1 and 5 are listed as days 5, 3, 1. */
  lemma OrderingExample(h3: Hash, h1: Hash, h5: Hash)
    ensures var logs := [RawLog(Some(EventArgs(Some(10), Some(3), Some(1))), h3),
                         RawLog(Some(EventArgs(Some(20), Some(1), Some(1))), h1),
                         RawLog(Some(EventArgs(Some(30), Some(5), Some(2))), h5)];
            ResolveLogs(logs) == [Entry(30, 5, 2, h5), Entry(10, 3, 1, h3), Entry(20, 1, 1, h1)]
  {
    var logs := [RawLog(Some(EventArgs(Some(10), Some(3), Some(1))), h3),
                 RawLog(Some(EventArgs(Some(20), Some(1), Some(1))), h1),
                 RawLog(Some(EventArgs(Some(30), Some(5), Some(2))), h5)];
    var e3, e1, e5 := Entry(10, 3, 1, h3), Entry(20, 1, 1, h1), Entry(30, 5, 2, h5);
    assert DecodeLogs(logs) == [e3, e1, e5];
    assert SortDescending([e5], DayOf) == [e5];
    assert SortDescending([e1, e5], DayOf) == Insert(e1, [e5], DayOf) == [e5, e1];
    assert Insert(e3, [e5, e1], DayOf) == [e5] + Insert(e3, [e1], DayOf) == [e5, e3, e1];
  }

  /** The `cancelled` flag one run of the effect captures; its cleanup sets it. */
  class Fetch {
    var cancelled: bool

    constructor ()
      ensures !cancelled
    {
      cancelled := false;
    }
  }

  /** The values the effect depends on: `[publicClient, contractAddress, userAddress, refreshIndex]`. */
  datatype Deps = Deps(client: Option<nat>, contract: Option<Address>, user: Option<Address>, refreshIndex: nat)

  datatype FetchError = FetchError(message: string)

  /** The state of one `useRewardHistory(contractAddress, userAddress)` hook. */
  class RewardHistoryHook {
    var history: seq<Entry>
    var isLoading: bool
    var error: Option<FetchError>
    var refreshIndex: nat
    /** The dependencies the effect last ran with; none before the first render. */
    var lastDeps: Option<Deps>
    /** The fetch of the effect run now in place, whose cleanup has not run. */
    var live: Fetch?

    constructor ()
      ensures history == [] && !isLoading && error == None && refreshIndex == 0
      ensures lastDeps == None && live == null
    {
      history, isLoading, error, refreshIndex := [], false, None, 0;
      lastDeps, live := None, null;
    }

    /** `totalRewardsClaimed`. */
    function TotalRewardsClaimed(): (total: nat)
      reads this
      ensures history == [] ==> total == 0
    {
      TotalRewards(history)
    }

    /**
     * A render. When a dependency differs from the last run, React first runs the previous run's
     * cleanup (`cancelled = true`) and then the effect: with a client, a contract and a user it
     * starts a fetch (`setIsLoading(true)`) and returns that fetch; otherwise it returns early,
     * starts nothing and leaves the visible state as it is.
     */
    method Render(client: Option<nat>, contract: Option<Address>, user: Option<Address>) returns (started: Fetch?)
      modifies this, live
      ensures history == old(history) && error == old(error) && refreshIndex == old(refreshIndex)
      ensures var deps := Deps(client, contract, user, old(refreshIndex));
        if old(lastDeps) == Some(deps) then
          started == null && live == old(live) && isLoading == old(isLoading) && lastDeps == old(lastDeps)
          && (old(live) != null ==> old(live).cancelled == old(live.cancelled))
        else
          lastDeps == Some(deps)
          && (old(live) != null ==> old(live).cancelled)
          && (started != null <==> client.Some? && contract.Some? && user.Some?)
          && (started != null ==> fresh(started) && !started.cancelled && isLoading)
          && (started == null ==> isLoading == old(isLoading))
          && live == started
    {
      var deps := Deps(client, contract, user, refreshIndex);
      started := null;
      if lastDeps != Some(deps) {
        if live != null {
          live.cancelled := true;
        }
        live := null;
        lastDeps := Some(deps);
        if client.Some? && contract.Some? && user.Some? {
          started := new Fetch();
          live := started;
          isLoading := true;
        }
      }
    }

    /** Unmounting runs the cleanup of the effect run in place. */
    method Unmount()
      modifies this, live
      ensures old(live) != null ==> old(live).cancelled
      ensures live == null
      ensures history == old(history) && isLoading == old(isLoading) && error == old(error)
      ensures refreshIndex == old(refreshIndex) && lastDeps == old(lastDeps)
    {
      if live != null {
        live.cancelled := true;
      }
      live := null;
    }

    /** `refetch()`: bumps `refreshIndex`, which makes the next render re-run the effect. */
    method Refetch()
      modifies this
      ensures refreshIndex == old(refreshIndex) + 1
      ensures history == old(history) && isLoading == old(isLoading) && error == old(error)
      ensures lastDeps == old(lastDeps) && live == old(live)
    {
      refreshIndex := refreshIndex + 1;
    }

    /**
     * `getLogs` of fetch `f` resolved with `logs`. A cancelled fetch changes nothing; otherwise the
     * history becomes the resolved logs, the error is cleared and loading ends.
     */
    method Settle(f: Fetch, logs: seq<RawLog>)
      modifies this
      ensures refreshIndex == old(refreshIndex) && lastDeps == old(lastDeps) && live == old(live)
      ensures f.cancelled ==> history == old(history) && isLoading == old(isLoading) && error == old(error)
      ensures !f.cancelled ==> history == ResolveLogs(logs) && !isLoading && error == None
    {
      if !f.cancelled {
        history := ResolveLogs(logs);
        error := None;
      }
      if !f.cancelled {
        isLoading := false;
      }
    }

    /**
     * `getLogs` of fetch `f` failed with `e`. A cancelled fetch changes nothing; otherwise the error
     * is recorded, loading ends and the previous history stays.
     */
    method Fail(f: Fetch, e: FetchError)
      modifies this
      ensures refreshIndex == old(refreshIndex) && lastDeps == old(lastDeps) && live == old(live)
      ensures history == old(history)
      ensures f.cancelled ==> isLoading == old(isLoading) && error == old(error)
      ensures !f.cancelled ==> !isLoading && error == Some(e)
    {
      if !f.cancelled {
        error := Some(e);
      }
      if !f.cancelled {
        isLoading := false;
      }
    }
  }

  /**
   * Stale-subject suppression: the user switches from account `a` to account `b` while `a`'s fetch
   * is in flight; `b`'s fetch settles first and `a`'s late result never overwrites it.
   */
  method SwitchedAccountKeepsNewHistory(contract: Address, a: Address, b: Address, logsA: seq<RawLog>, logsB: seq<RawLog>)
    returns (history: seq<Entry>, total: nat)
    requires a != b
    ensures history == ResolveLogs(logsB)
    ensures total == TotalRewards(DecodeLogs(logsB))
  {
    var hook := new RewardHistoryHook();
    var fetchA := hook.Render(Some(0), Some(contract), Some(a));
    var fetchB := hook.Render(Some(0), Some(contract), Some(b));
    hook.Settle(fetchB, logsB);
    hook.Settle(fetchA, logsA);
    history := hook.history;
    total := hook.TotalRewardsClaimed();
    TotalOfResolved(logsB);
  }

  /** A late failure of a superseded fetch leaves the newer fetch's history and its cleared error. */
  method LateFailureIgnored(contract: Address, a: Address, b: Address, logsB: seq<RawLog>, e: FetchError)
    returns (history: seq<Entry>, error: Option<FetchError>, isLoading: bool)
    requires a != b
    ensures history == ResolveLogs(logsB) && error == None && !isLoading
  {
    var hook := new RewardHistoryHook();
    var fetchA := hook.Render(Some(0), Some(contract), Some(a));
    var fetchB := hook.Render(Some(0), Some(contract), Some(b));
    hook.Settle(fetchB, logsB);
    hook.Fail(fetchA, e);
    history, error, isLoading := hook.history, hook.error, hook.isLoading;
  }

  /**
   * `refetch()` re-runs the effect with the same subject; resolving the same logs again yields the
   * same history and total.
   */
  method RefetchSameLogs(contract: Address, user: Address, logs: seq<RawLog>)
    returns (first: seq<Entry>, second: seq<Entry>, firstTotal: nat, secondTotal: nat)
    ensures first == second == ResolveLogs(logs)
    ensures firstTotal == secondTotal
  {
    var hook := new RewardHistoryHook();
    var f1 := hook.Render(Some(0), Some(contract), Some(user));
    hook.Settle(f1, logs);
    first, firstTotal := hook.history, hook.TotalRewardsClaimed();
    hook.Refetch();
    var f2 := hook.Render(Some(0), Some(contract), Some(user));
    hook.Settle(f2, logs);
    second, secondTotal := hook.history, hook.TotalRewardsClaimed();
  }

  /**
   * Losing the user while a fetch is in flight cancels it and starts nothing, so the loading flag
   * that fetch raised is never lowered.
   */
  method DisconnectMidFetchKeepsLoading(contract: Address, user: Address, logs: seq<RawLog>)
    returns (isLoading: bool, history: seq<Entry>)
    ensures isLoading && history == []
  {
    var hook := new RewardHistoryHook();
    var f := hook.Render(Some(0), Some(contract), Some(user));
    var none := hook.Render(Some(0), Some(contract), None);
    hook.Settle(f, logs);
    isLoading, history := hook.isLoading, hook.history;
  }
}
