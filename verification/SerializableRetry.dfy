/**
 `runSerializableWithRetry`: a transaction that is tried again while the engine reports a
 serialization failure.  A transaction either applies its callback to the state or leaves
 the state alone; the world decides which attempts the engine aborts and what other
 transactions commit in between.
 */
module SerializableRetry {
  import opened Wrappers

  // ------------------------------------------------------------------------
  // Errors
  // ------------------------------------------------------------------------

  /** A property of a thrown object: absent, a string, or something else. */
  datatype Field = Missing | Text(text: string) | Other

  datatype Driver = NoDriver | DriverError(code: Field)

  /** Anything JavaScript code may throw. */
  datatype Thrown = NotAnObject | Object(code: Field, driverError: Driver)

  function ExtractPgCode(e: Thrown): Option<string> {
    if e.NotAnObject? then None
    else if e.code.Text? then Some(e.code.text)
    else if e.driverError.DriverError? && e.driverError.code.Text? then Some(e.driverError.code.text)
    else None
  }

  const SERIALIZATION_FAILURE := "40001"

  predicate IsSerializationFailure(e: Thrown) {
    ExtractPgCode(e) == Some(SERIALIZATION_FAILURE)
  }

  /** After failing `attempt` times before, this failure is tried again. */
  predicate Retries(e: Thrown, attempt: nat, maxRetries: nat) {
    IsSerializationFailure(e) && attempt < maxRetries
  }

  /** Only code 40001 is tried again, read from the error itself or, where that has no string code, from its driver error. */
  lemma RetriesIff(e: Thrown, attempt: nat, maxRetries: nat)
    ensures Retries(e, attempt, maxRetries) <==>
            && attempt < maxRetries && e.Object?
            && (e.code == Text("40001") || (!e.code.Text? && e.driverError == DriverError(Text("40001"))))
  {
  }

  // ------------------------------------------------------------------------
  // One caller
  // ------------------------------------------------------------------------

  type Callback<!S, !T> = S -> Result<(S, T), Thrown>

  type Fraction = x: real | 0.0 <= x < 1.0 witness 0.0

  /** What happens around one attempt: other commits before it, an abort by the engine, the random number drawn after it. */
  datatype Weather<!S> = Weather(others: S -> S, abort: Option<Thrown>, random: Fraction)

  type World<!S> = nat -> Weather<S>

  /** The state the `k`-th attempt sees, the earlier ones having left no trace. */
  ghost function StateAt<S>(world: World<S>, start: S, k: nat): S {
    world(k).others(if k == 0 then start else StateAt(world, start, k - 1))
  }

  function Transaction<S, T>(weather: Weather<S>, callback: Callback<S, T>, state: S): Result<(S, T), Thrown> {
    if weather.abort.Some? then Failure(weather.abort.value) else callback(state)
  }

  ghost function Attempt<S, T>(world: World<S>, callback: Callback<S, T>, start: S, k: nat): Result<(S, T), Thrown> {
    Transaction(world(k), callback, StateAt(world, start, k))
  }

  /** The sum of the random numbers drawn after the first `r` attempts. */
  function Drawn<S>(world: World<S>, r: nat): real {
    if r == 0 then 0.0 else Drawn(world, r - 1) + world(r - 1).random
  }

  /** The attempt failed with 40001. */
  ghost predicate FailsWith40001<S, T>(world: World<S>, callback: Callback<S, T>, start: S, k: nat) {
    var outcome := Attempt(world, callback, start, k);
    outcome.Failure? && (outcome.error == Object(Text("40001"), NoDriver) || outcome.error == Object(Missing, DriverError(Text("40001"))))
  }

  /** The attempt failed in a way that is tried again. */
  ghost predicate FailedForNow<S, T>(world: World<S>, callback: Callback<S, T>, start: S, k: nat) {
    Attempt(world, callback, start, k).Failure? && IsSerializationFailure(Attempt(world, callback, start, k).error)
  }

  type Millis = x: real | x >= 0.0 witness 0.0

  /** The wait before retry number `attempt`; jitter adds up to one more `backoff`. */
  function Delay(backoff: Millis, attempt: nat, jitter: bool, random: Fraction): real {
    if backoff == 0.0 then 0.0
    else backoff * attempt as real + (if jitter then random * backoff else 0.0)
  }

  /** `backoff` added up `n` times. */
  function Multiple(backoff: Millis, n: nat): real {
    if n == 0 then 0.0 else Multiple(backoff, n - 1) + backoff
  }

  lemma {:induction false} MultipleIs(backoff: Millis, n: nat)
    ensures Multiple(backoff, n) == backoff * n as real
  {
    if n > 0 {
      MultipleIs(backoff, n - 1);
      assert backoff * n as real == backoff * (n - 1) as real + backoff;
    }
  }

  /** The waits before `r` retries without jitter. */
  function LinearWaits(backoff: Millis, r: nat): real {
    if r == 0 then 0.0 else LinearWaits(backoff, r - 1) + Multiple(backoff, r)
  }

  lemma {:induction false} LinearWaitsAre(backoff: Millis, r: nat)
    ensures LinearWaits(backoff, r) == backoff * (r * (r + 1)) as real / 2.0
  {
    if r > 0 {
      LinearWaitsAre(backoff, r - 1);
      MultipleIs(backoff, r);
      assert r * (r + 1) == (r - 1) * r + 2 * r;
      var a, b := ((r - 1) * r) as real, (2 * r) as real;
      assert backoff * (a + b) == backoff * a + backoff * b;
      assert backoff * b == 2.0 * (backoff * r as real);
    }
  }

  /** The time `waited` after `r` retries: the linear waits exactly, or up to `r` times `backoff` more with jitter. */
  predicate WaitedFor(backoff: Millis, jitter: bool, r: nat, waited: real) {
    var linear := LinearWaits(backoff, r);
    if jitter then linear <= waited <= linear + Multiple(backoff, r) else waited == linear
  }

  /** The time waited before `r` retries, when the world draws the jitter. */
  function Waits<S>(world: World<S>, backoff: Millis, jitter: bool, r: nat): real {
    LinearWaits(backoff, r) + if jitter then backoff * Drawn(world, r) else 0.0
  }

  lemma OneMoreWait<S>(world: World<S>, backoff: Millis, jitter: bool, r: nat)
    ensures Waits(world, backoff, jitter, r + 1) == Waits(world, backoff, jitter, r) + Delay(backoff, r + 1, jitter, world(r).random)
  {
    MultipleIs(backoff, r + 1);
    assert backoff * (Drawn(world, r) + world(r).random) == backoff * Drawn(world, r) + backoff * world(r).random;
  }

  lemma {:induction false} DrawnWithin<S>(world: World<S>, r: nat)
    ensures 0.0 <= Drawn(world, r) <= r as real
  {
    if r > 0 { DrawnWithin(world, r - 1); }
  }

  lemma TimesWithin(b: Millis, x: real, n: real)
    requires 0.0 <= x <= n
    ensures 0.0 <= b * x <= b * n
  {
  }

  lemma WaitsWithin<S>(world: World<S>, backoff: Millis, jitter: bool, r: nat)
    ensures WaitedFor(backoff, jitter, r, Waits(world, backoff, jitter, r))
  {
    DrawnWithin(world, r);
    TimesWithin(backoff, Drawn(world, r), r as real);
    MultipleIs(backoff, r);
  }

  lemma NoBackoffNoWait<S>(world: World<S>, jitter: bool, r: nat)
    ensures Waits(world, 0.0, jitter, r) == 0.0
  {
    LinearWaitsAre(0.0, r);
  }

  class Store<S> {
    var state: S

    constructor (state: S)
      ensures this.state == state
    {
      this.state := state;
    }
  }

  datatype Options = Options(maxRetries: Option<nat>, backoffMs: Option<Millis>, jitter: bool)

  function MaxRetries(o: Options): nat {
    if o.maxRetries.Some? then o.maxRetries.value else 2
  }

  function BackoffMs(o: Options): Millis {
    if o.backoffMs.Some? then o.backoffMs.value else 0.0
  }

  /** The time waited as the options ask: not at all unless they name a backoff. */
  ghost predicate WaitedAsAsked<S>(options: Options, world: World<S>, retries: nat, waited: real) {
    match options.backoffMs
    case None => waited == 0.0
    case Some(backoff) =>
      && waited == Waits(world, backoff, options.jitter, retries)
      && WaitedFor(backoff, options.jitter, retries, waited)
  }

  /** At most two retries unless the options name a number; each attempt that fails with 40001 is followed by another while one is left. */
  ghost predicate TriedAsAsked<S, T>(options: Options, world: World<S>, callback: Callback<S, T>, start: S, attempts: nat) {
    var most := match options.maxRetries case None => 3 case Some(n) => n + 1;
    && 1 <= attempts <= most
    && ((forall k: nat :: k < most - 1 ==> FailsWith40001(world, callback, start, k)) ==> attempts == most)
  }

  lemma AskedFor<S, T>(options: Options, world: World<S>, callback: Callback<S, T>, start: S, attempts: nat, waited: real)
    requires 1 <= attempts <= MaxRetries(options) + 1
    requires attempts <= MaxRetries(options) ==> !FailedForNow(world, callback, start, attempts - 1)
    requires waited == Waits(world, BackoffMs(options), options.jitter, attempts - 1)
    ensures WaitedAsAsked(options, world, attempts - 1, waited) && TriedAsAsked(options, world, callback, start, attempts)
  {
    WaitsWithin(world, BackoffMs(options), options.jitter, attempts - 1);
    NoBackoffNoWait(world, options.jitter, attempts - 1);
    if attempts <= MaxRetries(options) {
      assert !FailsWith40001(world, callback, start, attempts - 1);
    }
  }

  /**
   Runs the callback until it commits, fails for good, or has used up its retries.

   Every attempt but the last failed with a serialization failure and left no trace.  The
   last either committed once, or failed: then nothing of the caller is in the state, and
   the error is not a serialization failure unless no retry was left.
   */
  method RunSerializableWithRetry<S, T>(store: Store<S>, callback: Callback<S, T>, options: Options, world: World<S>)
    returns (r: Result<T, Thrown>, attempts: nat, waited: real)
    modifies store
    ensures TriedAsAsked(options, world, callback, old(store.state), attempts)
    ensures forall k: nat :: k < attempts - 1 ==> FailedForNow(world, callback, old(store.state), k)
    ensures match Attempt(world, callback, old(store.state), attempts - 1)
            case Success(done) => r == Success(done.1) && store.state == done.0
            case Failure(e) =>
              && r == Failure(e) && store.state == StateAt(world, old(store.state), attempts - 1)
              && (IsSerializationFailure(e) ==> attempts == MaxRetries(options) + 1)
    ensures WaitedAsAsked(options, world, attempts - 1, waited)
  {
    var maxRetries, backoff := MaxRetries(options), BackoffMs(options);
    ghost var start := store.state;
    var attempt: nat := 0;
    waited := 0.0;
    while true
      invariant attempt <= maxRetries
      invariant attempt == 0 ==> store.state == start
      invariant attempt > 0 ==> store.state == StateAt(world, start, attempt - 1)
      invariant forall k: nat :: k < attempt ==> FailedForNow(world, callback, start, k)
      invariant waited == Waits(world, backoff, options.jitter, attempt)
      decreases maxRetries - attempt
    {
      var weather := world(attempt);
      store.state := weather.others(store.state);
      match Transaction(weather, callback, store.state)
      case Success((state, value)) =>
        store.state := state;
        AskedFor(options, world, callback, start, attempt + 1, waited);
        return Success(value), attempt + 1, waited;
      case Failure(e) =>
        if !Retries(e, attempt, maxRetries) {
          AskedFor(options, world, callback, start, attempt + 1, waited);
          return Failure(e), attempt + 1, waited;
        }
        OneMoreWait(world, backoff, options.jitter, attempt);
        attempt := attempt + 1;
        waited := waited + Delay(backoff, attempt, options.jitter, weather.random);
    }
  }

  // ------------------------------------------------------------------------
  // Many callers
  // ------------------------------------------------------------------------

  datatype Caller<!S, !T> = Caller(callback: Callback<S, T>, maxRetries: nat, failures: nat, result: Option<Result<T, Thrown>>)

  /** The shared state, the callers, and which of them have committed, in order. */
  datatype System<!S, !T> = System(state: S, callers: seq<Caller<S, T>>, log: seq<nat>)

  /** The next attempt of caller `who`, aborted by the engine or not. */
  datatype Turn = Turn(who: nat, abort: Option<Thrown>)

  predicate CanTake<S, T>(s: System<S, T>, turn: Turn) {
    turn.who < |s.callers| && s.callers[turn.who].result.None?
  }

  function Take<S, T>(s: System<S, T>, turn: Turn): System<S, T>
    requires CanTake(s, turn)
  {
    var c := s.callers[turn.who];
    var outcome: Result<(S, T), Thrown> := if turn.abort.Some? then Failure(turn.abort.value) else c.callback(s.state);
    match outcome
    case Success((state, value)) =>
      System(state, s.callers[turn.who := c.(result := Some(Success(value)))], s.log + [turn.who])
    case Failure(e) =>
      if Retries(e, c.failures, c.maxRetries) then s.(callers := s.callers[turn.who := c.(failures := c.failures + 1)])
      else s.(callers := s.callers[turn.who := c.(result := Some(Failure(e)))])
  }

  /** An attempt of a caller: which outcome leads to a commit, to another try, or to a failure for good. */
  lemma TakeIs<S, T>(s: System<S, T>, turn: Turn)
    requires CanTake(s, turn)
    ensures var c, end := s.callers[turn.who], Take(s, turn);
            && |end.callers| == |s.callers|
            && (forall i :: 0 <= i < |s.callers| && i != turn.who ==> end.callers[i] == s.callers[i])
            && match (if turn.abort.Some? then Failure(turn.abort.value) else c.callback(s.state))
               case Success(done) =>
                 && end.state == done.0 && end.log == s.log + [turn.who]
                 && end.callers[turn.who] == Caller(c.callback, c.maxRetries, c.failures, Some(Success(done.1)))
               case Failure(e) =>
                 && end.state == s.state && end.log == s.log
                 && end.callers[turn.who] == if Retries(e, c.failures, c.maxRetries)
                                             then Caller(c.callback, c.maxRetries, c.failures + 1, None)
                                             else Caller(c.callback, c.maxRetries, c.failures, Some(Failure(e)))
  {
  }

  /** The state after the callbacks of `log` run one after the other, each of them successfully. */
  function Replay<S, T>(callers: seq<Caller<S, T>>, start: S, log: seq<nat>): Option<S>
    decreases |log|
  {
    if log == [] then Some(start)
    else ReplayOne(callers, Replay(callers, start, log[..|log| - 1]), log[|log| - 1])
  }

  function ReplayOne<S, T>(callers: seq<Caller<S, T>>, before: Option<S>, who: nat): Option<S> {
    if before.None? || who >= |callers| then None
    else
      match callers[who].callback(before.value)
      case Success((state, value)) => Some(state)
      case Failure(e) => None
  }

  lemma ReplayOneMore<S, T>(callers: seq<Caller<S, T>>, start: S, log: seq<nat>, who: nat)
    ensures Replay(callers, start, log + [who]) == ReplayOne(callers, Replay(callers, start, log), who)
  {
    assert (log + [who])[..|log|] == log;
  }

  /** What the callers set out to do, without their progress. */
  ghost predicate SamePlan<S, T>(a: seq<Caller<S, T>>, b: seq<Caller<S, T>>) {
    && |a| == |b|
    && forall i :: 0 <= i < |a| ==> a[i].callback == b[i].callback && a[i].maxRetries == b[i].maxRetries
  }

  ghost predicate Fresh<S, T>(callers: seq<Caller<S, T>>) {
    forall i :: 0 <= i < |callers| ==> callers[i].failures == 0 && callers[i].result.None?
  }

  /** The commit `j` of the log returned what its callback returns on the state left by the commits before it. */
  ghost predicate ReturnedInTurn<S, T>(start: S, s: System<S, T>, j: nat)
    requires j < |s.log| && s.log[j] < |s.callers|
  {
    var before := Replay(s.callers, start, s.log[..j]);
    && before.Some?
    && var c := s.callers[s.log[j]];
       c.callback(before.value).Success? && c.result == Some(Success(c.callback(before.value).value.1))
  }

  ghost predicate Serial<S, T>(start: S, s: System<S, T>) {
    && (forall j :: 0 <= j < |s.log| ==> s.log[j] < |s.callers|)
    && Replay(s.callers, start, s.log) == Some(s.state)
    && Logged(s)
    && (forall j :: 0 <= j < |s.log| ==> ReturnedInTurn(start, s, j))
  }

  lemma {:induction false} ReplayOfSamePlan<S, T>(a: seq<Caller<S, T>>, b: seq<Caller<S, T>>, start: S, log: seq<nat>)
    requires SamePlan(a, b)
    ensures Replay(a, start, log) == Replay(b, start, log)
    decreases |log|
  {
    if log != [] {
      ReplayOfSamePlan(a, b, start, log[..|log| - 1]);
    }
  }

  lemma TakeKeepsPlan<S, T>(s: System<S, T>, turn: Turn)
    requires CanTake(s, turn)
    ensures SamePlan(s.callers, Take(s, turn).callers)
  {
  }

  lemma TakeKeepsReturns<S, T>(start: S, s: System<S, T>, turn: Turn, j: nat)
    requires CanTake(s, turn) && Serial(start, s) && j < |s.log|
    ensures var s' := Take(s, turn); j < |s'.log| && s'.log[j] < |s'.callers| && ReturnedInTurn(start, s', j)
  {
    var s' := Take(s, turn);
    TakeKeepsPlan(s, turn);
    assert s'.log[..j] == s.log[..j];
    ReplayOfSamePlan(s.callers, s'.callers, start, s.log[..j]);
    assert ReturnedInTurn(start, s, j);
    assert s.log[j] in s.log;
  }

  lemma {:induction false} TakeKeepsReplay<S, T>(start: S, s: System<S, T>, turn: Turn)
    requires CanTake(s, turn) && Replay(s.callers, start, s.log) == Some(s.state)
    ensures var s' := Take(s, turn); Replay(s'.callers, start, s'.log) == Some(s'.state)
    ensures var s' := Take(s, turn); |s'.log| > |s.log| ==> ReturnedInTurn(start, s', |s.log|)
  {
    var s' := Take(s, turn);
    TakeKeepsPlan(s, turn);
    ReplayOfSamePlan(s.callers, s'.callers, start, s.log);
    if |s'.log| > |s.log| { CommitReplays(start, s, turn); }
  }

  lemma {:induction false} CommitReplays<S, T>(start: S, s: System<S, T>, turn: Turn)
    requires CanTake(s, turn) && |Take(s, turn).log| > |s.log| && Replay(Take(s, turn).callers, start, s.log) == Some(s.state)
    ensures var s' := Take(s, turn); Replay(s'.callers, start, s'.log) == Some(s'.state) && ReturnedInTurn(start, s', |s.log|)
  {
    var s' := Take(s, turn);
    assert s'.log == s.log + [turn.who] && s'.log[..|s.log|] == s.log;
    ReplayOneMore(s'.callers, start, s.log, turn.who);
  }

  /** The log names the callers that have succeeded, each once. */
  ghost predicate Logged<S, T>(s: System<S, T>) {
    && (forall i, j :: 0 <= i < j < |s.log| ==> s.log[i] != s.log[j])
    && (forall i :: 0 <= i < |s.callers| ==>
          && s.callers[i].failures <= s.callers[i].maxRetries
          && (i in s.log <==> s.callers[i].result.Some? && s.callers[i].result.value.Success?))
  }

  lemma TakeKeepsLog<S, T>(s: System<S, T>, turn: Turn)
    requires CanTake(s, turn) && Logged(s)
    ensures Logged(Take(s, turn))
  {
    var s' := Take(s, turn);
    assert turn.who !in s.log;
    forall i | 0 <= i < |s'.callers|
      ensures i in s'.log <==> s'.callers[i].result.Some? && s'.callers[i].result.value.Success?
    {
      assert i in s'.log <==> i in s.log || (i == turn.who && |s'.log| > |s.log|);
    }
  }

  lemma TakeKeepsSerial<S, T>(start: S, s: System<S, T>, turn: Turn)
    requires CanTake(s, turn) && Serial(start, s)
    ensures Serial(start, Take(s, turn))
  {
    TakeKeepsReplay(start, s, turn);
    TakeKeepsLog(s, turn);
    forall j | 0 <= j < |s.log| ensures ReturnedInTurn(start, Take(s, turn), j) {
      TakeKeepsReturns(start, s, turn, j);
    }
  }

  function TakeAll<S, T>(s: System<S, T>, turns: seq<Turn>): Option<System<S, T>>
    decreases |turns|
  {
    if turns == [] then Some(s)
    else if !CanTake(s, turns[0]) then None
    else TakeAll(Take(s, turns[0]), turns[1..])
  }

  lemma {:induction false} RunKeepsSerial<S, T>(start: S, s: System<S, T>, turns: seq<Turn>)
    requires Serial(start, s)
    ensures var end := TakeAll(s, turns); end.Some? ==> Serial(start, end.value) && SamePlan(s.callers, end.value.callers)
    decreases |turns|
  {
    if turns != [] && CanTake(s, turns[0]) {
      TakeKeepsPlan(s, turns[0]);
      TakeKeepsSerial(start, s, turns[0]);
      RunKeepsSerial(start, Take(s, turns[0]), turns[1..]);
    }
  }

  /**
   However the callers interleave, the state is what their committed callbacks leave when
   run one after the other; each caller commits at most once and gets what its callback
   returned there; one that failed for good is not in the state at all.
   */
  lemma EveryRunIsSerial<S, T>(start: S, callers: seq<Caller<S, T>>, turns: seq<Turn>)
    requires Fresh(callers)
    ensures var end := TakeAll(System(start, callers, []), turns); end.Some? ==> Serial(start, end.value)
  {
    RunKeepsSerial(start, System(start, callers, []), turns);
  }

  /** The turns that caller `who` takes. */
  function TurnsOf(turns: seq<Turn>, who: nat): set<nat> {
    set k: nat | k < |turns| && turns[k].who == who
  }

  function Shifted(s: set<nat>): set<nat> {
    set k | k in s :: k + 1
  }

  lemma InShifted(s: set<nat>, j: nat)
    ensures j in Shifted(s) <==> j > 0 && j - 1 in s
  {
    if j > 0 {
      var k := j - 1;
      assert k in s ==> k + 1 in Shifted(s);
    }
  }

  lemma {:induction false} ShiftedSize(s: set<nat>)
    ensures |Shifted(s)| == |s|
  {
    if k :| k in s {
      ShiftedSize(s - {k});
      InShifted(s - {k}, k + 1);
      forall j: nat
        ensures j in Shifted(s) <==> j in Shifted(s - {k}) + {k + 1}
      {
        InShifted(s, j);
        InShifted(s - {k}, j);
      }
      assert Shifted(s) == Shifted(s - {k}) + {k + 1};
    }
  }

  lemma FirstTurn(turns: seq<Turn>, who: nat)
    requires turns != []
    ensures |TurnsOf(turns, who)| == |TurnsOf(turns[1..], who)| + if turns[0].who == who then 1 else 0
  {
    var later := Shifted(TurnsOf(turns[1..], who));
    ShiftedSize(TurnsOf(turns[1..], who));
    forall j: nat
      ensures j in later <==> j > 0 && j in TurnsOf(turns, who)
    {
      InShifted(TurnsOf(turns[1..], who), j);
    }
    assert TurnsOf(turns, who) == later + if turns[0].who == who then {0} else {};
  }

  lemma {:induction false} TurnsLeft<S, T>(s: System<S, T>, turns: seq<Turn>, who: nat)
    requires Logged(s) && who < |s.callers| && TakeAll(s, turns).Some?
    ensures var c := s.callers[who];
            |TurnsOf(turns, who)| <= if c.result.Some? then 0 else c.maxRetries - c.failures + 1
    decreases |turns|
  {
    if turns != [] {
      FirstTurn(turns, who);
      TakeKeepsLog(s, turns[0]);
      TurnsLeft(Take(s, turns[0]), turns[1..], who);
    }
  }

  /** In no run does a caller take more than `maxRetries + 1` turns. */
  lemma RunsAreShort<S, T>(start: S, callers: seq<Caller<S, T>>, turns: seq<Turn>, who: nat)
    requires Fresh(callers) && who < |callers| && TakeAll(System(start, callers, []), turns).Some?
    ensures |TurnsOf(turns, who)| <= callers[who].maxRetries + 1
  {
    TurnsLeft(System(start, callers, []), turns, who);
  }
}
