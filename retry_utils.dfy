/**
 * `retry_with_item`: a bounded retry loop. Each attempt picks an item, runs
 * the unit of work on it, and on failure asks a classifier whether to go on
 * with the next attempt or to re-raise.
 *
 * The three callbacks are stateful in the program (picking a model consults
 * usage counters that the failing attempt just updated). Here each callback is
 * a function of the calls made so far, so a callback may answer differently
 * each time it is called. Each call may return a value or raise an exception.
 */
module RetryUtils {
  import opened Wrappers

  /** What one callback call did: returned a value or raised an exception. */
  datatype Outcome<T, E> = Returned(value: T) | Threw(error: E)

  /** One callback call, with its arguments and what it did. */
  datatype Call<I, R, E> =
    | Picked(picked: Outcome<Option<I>, E>)
    | Ran(item: I, ran: Outcome<R, E>)
    | Classified(item: I, attempt: int, maxAttempts: int, error: E, decision: Outcome<bool, E>)

  /** How `retry_with_item` ends: a result of `run`, `None`, or an exception it lets through. */
  datatype RetryResult<R, E> = Success(value: R) | NoResult | Raised(error: E)

  /**
   * What `retry_with_item` does from attempt `attempt` on, when `history` are
   * the calls already made: how it ends, and the calls it still makes.
   */
  function RetryFrom<I, R, E>(
    maxAttempts: int,
    pick: seq<Call<I, R, E>> -> Outcome<Option<I>, E>,
    run: (seq<Call<I, R, E>>, I) -> Outcome<R, E>,
    onError: (seq<Call<I, R, E>>, I, int, int, E) -> Outcome<bool, E>,
    attempt: int,
    history: seq<Call<I, R, E>>
  ): (RetryResult<R, E>, seq<Call<I, R, E>>)
    decreases maxAttempts - attempt
  {
    if attempt > maxAttempts then (NoResult, [])
    else
      var p := pick(history);
      match p
      case Threw(e) => (Raised(e), [Picked(p)])
      case Returned(None) => (NoResult, [Picked(p)])
      case Returned(Some(item)) =>
        var h1 := history + [Picked(p)];
        var r := run(h1, item);
        match r
        case Returned(v) => (Success(v), [Picked(p), Ran(item, r)])
        case Threw(e) =>
          var h2 := h1 + [Ran(item, r)];
          var d := onError(h2, item, attempt, maxAttempts, e);
          var block := [Picked(p), Ran(item, r), Classified(item, attempt, maxAttempts, e, d)];
          match d
          case Threw(e2) => (Raised(e2), block)
          case Returned(false) => (Raised(e), block)
          case Returned(true) =>
            var rest := RetryFrom(maxAttempts, pick, run, onError, attempt + 1, history + block);
            (rest.0, block + rest.1)
  }

  /** `retry_with_item(max_attempts, pick_item, run, on_error)`: how it ends, and every callback call it makes. */
  function Retry<I, R, E>(
    maxAttempts: int,
    pick: seq<Call<I, R, E>> -> Outcome<Option<I>, E>,
    run: (seq<Call<I, R, E>>, I) -> Outcome<R, E>,
    onError: (seq<Call<I, R, E>>, I, int, int, E) -> Outcome<bool, E>
  ): (RetryResult<R, E>, seq<Call<I, R, E>>)
  {
    RetryFrom(maxAttempts, pick, run, onError, 1, [])
  }

  /** Concatenation regroups freely. */
  lemma AppendAssoc<T>(a: seq<T>, b: seq<T>, c: seq<T>)
    ensures a + (b + c) == (a + b) + c
  {
  }

  /** The loop of `retry_with_item`, returning how it ended and the calls it made. */
  method RetryWithItem<I, R, E>(
    maxAttempts: int,
    pick: seq<Call<I, R, E>> -> Outcome<Option<I>, E>,
    run: (seq<Call<I, R, E>>, I) -> Outcome<R, E>,
    onError: (seq<Call<I, R, E>>, I, int, int, E) -> Outcome<bool, E>
  ) returns (result: RetryResult<R, E>, calls: seq<Call<I, R, E>>)
    ensures result == Retry(maxAttempts, pick, run, onError).0
    ensures calls == Retry(maxAttempts, pick, run, onError).1
  {
    calls := [];
    var attempt := 1;
    assert calls + Retry(maxAttempts, pick, run, onError).1 == Retry(maxAttempts, pick, run, onError).1;
    while attempt <= maxAttempts
      invariant 1 <= attempt
      invariant Retry(maxAttempts, pick, run, onError).0 == RetryFrom(maxAttempts, pick, run, onError, attempt, calls).0
      invariant Retry(maxAttempts, pick, run, onError).1 == calls + RetryFrom(maxAttempts, pick, run, onError, attempt, calls).1
      decreases maxAttempts - attempt
    {
      var p := pick(calls);
      var picked := calls + [Picked(p)];
      match p {
        case Threw(e) =>
          return Raised(e), picked;
        case Returned(None) =>
          return NoResult, picked;
        case Returned(Some(item)) =>
          var r := run(picked, item);
          match r {
            case Returned(v) =>
              return Success(v), calls + [Picked(p), Ran(item, r)];
            case Threw(e) =>
              var d := onError(picked + [Ran(item, r)], item, attempt, maxAttempts, e);
              var block := [Picked(p), Ran(item, r), Classified(item, attempt, maxAttempts, e, d)];
              match d {
                case Threw(e2) =>
                  return Raised(e2), calls + block;
                case Returned(false) =>
                  return Raised(e), calls + block;
                case Returned(true) =>
                  ghost var rest := RetryFrom(maxAttempts, pick, run, onError, attempt + 1, calls + block);
                  AppendAssoc(calls, block, rest.1);
                  calls := calls + block;
              }
          }
      }
      attempt := attempt + 1;
    }
    result := NoResult;
  }

  // ---------------------------------------------------------------------------
  // Counting and reading the calls

  function CountPicks<I, R, E>(t: seq<Call<I, R, E>>): nat {
    if t == [] then 0 else (if t[0].Picked? then 1 else 0) + CountPicks(t[1..])
  }

  function CountRuns<I, R, E>(t: seq<Call<I, R, E>>): nat {
    if t == [] then 0 else (if t[0].Ran? then 1 else 0) + CountRuns(t[1..])
  }

  lemma {:induction false} CountsAppend<I, R, E>(a: seq<Call<I, R, E>>, b: seq<Call<I, R, E>>)
    ensures CountPicks(a + b) == CountPicks(a) + CountPicks(b)
    ensures CountRuns(a + b) == CountRuns(a) + CountRuns(b)
    decreases |a|
  {
    if a == [] {
      assert a + b == b;
    } else {
      assert (a + b)[1..] == a[1..] + b;
      CountsAppend(a[1..], b);
    }
  }

  /** A call after which the loop does not go on by itself. */
  predicate Ends<I, R, E>(c: Call<I, R, E>) {
    match c
    case Picked(p) => !(p.Returned? && p.value.Some?)
    case Ran(_, r) => r.Returned?
    case Classified(_, _, _, _, d) => !(d.Returned? && d.value)
  }

  lemma CountsOfOne<I, R, E>(c: Call<I, R, E>)
    ensures CountPicks([c]) == (if c.Picked? then 1 else 0)
    ensures CountRuns([c]) == (if c.Ran? then 1 else 0)
  {
    assert [c][1..] == [];
  }

  /** An attempt that runs its item picks once and runs once. */
  lemma BlockCounts<I, R, E>(block: seq<Call<I, R, E>>)
    requires 2 <= |block| <= 3 && block[0].Picked? && block[1].Ran?
    requires |block| == 3 ==> block[2].Classified?
    ensures CountPicks(block) == 1 && CountRuns(block) == 1 && CountRuns(block[..2]) == 1
  {
    CountsOfOne(block[0]);
    CountsOfOne(block[1]);
    assert block[..2] == [block[0]] + [block[1]];
    CountsAppend([block[0]], [block[1]]);
    if |block| == 3 {
      CountsOfOne(block[2]);
      assert block == block[..2] + [block[2]];
      CountsAppend(block[..2], [block[2]]);
    } else {
      assert block == block[..2];
    }
  }

  /** How `retry_with_item` ends, read off its last call. */
  function Ending<I, R, E>(t: seq<Call<I, R, E>>): RetryResult<R, E> {
    if t == [] then NoResult
    else
      match t[|t| - 1]
      case Picked(p) => if p.Threw? then Raised(p.error) else NoResult
      case Ran(_, r) => if r.Returned? then Success(r.value) else NoResult
      case Classified(_, _, _, e, d) =>
        if d.Threw? then Raised(d.error) else if !d.value then Raised(e) else NoResult
  }

  /** Every `run` call gets the item that the `pick_item` call just before it returned. */
  ghost predicate RunsGetPickedItem<I, R, E>(t: seq<Call<I, R, E>>) {
    forall k :: 0 <= k < |t| && t[k].Ran? ==> 0 < k && t[k - 1] == Picked(Returned(Some(t[k].item)))
  }

  /** Every failed `run` call is followed by an `on_error` call about the same item and exception. */
  ghost predicate FailuresClassified<I, R, E>(t: seq<Call<I, R, E>>) {
    forall k :: 0 <= k < |t| && t[k].Ran? && t[k].ran.Threw? ==>
      k + 1 < |t| && t[k + 1].Classified? && t[k + 1].item == t[k].item && t[k + 1].error == t[k].ran.error
  }

  /**
   * Every `on_error` call comes right after a failed `run` call, and gets
   * `max_attempts` and the number of the attempt, counted from `first`.
   */
  ghost predicate ClassifiedAttempts<I, R, E>(t: seq<Call<I, R, E>>, first: int, maxAttempts: int) {
    forall k :: 0 <= k < |t| && t[k].Classified? ==>
      0 < k && t[k - 1].Ran? && t[k - 1].ran.Threw?
      && t[k].maxAttempts == maxAttempts
      && t[k].attempt == first - 1 + CountRuns(t[..k])
      && first <= t[k].attempt <= maxAttempts
  }

  /** Only the last call may end the loop. */
  ghost predicate OnlyLastEnds<I, R, E>(t: seq<Call<I, R, E>>) {
    forall k :: 0 <= k < |t| - 1 ==> !Ends(t[k])
  }

  // ---------------------------------------------------------------------------
  // Properties of the loop, from any attempt on

  lemma {:induction false} RetryFromBounded<I, R, E>(
    m: int,
    pick: seq<Call<I, R, E>> -> Outcome<Option<I>, E>,
    run: (seq<Call<I, R, E>>, I) -> Outcome<R, E>,
    onError: (seq<Call<I, R, E>>, I, int, int, E) -> Outcome<bool, E>,
    a: int,
    h: seq<Call<I, R, E>>
  )
    ensures var t := RetryFrom(m, pick, run, onError, a, h).1;
      CountRuns(t) <= CountPicks(t) <= (if a <= m then m - a + 1 else 0)
      && (t == [] <==> a > m)
    decreases m - a
  {
    if a <= m {
      var p := pick(h);
      CountsOfOne<I, R, E>(Picked(p));
      if p.Returned? && p.value.Some? {
        var item := p.value.value;
        var r := run(h + [Picked(p)], item);
        BlockCounts([Picked(p), Ran(item, r)]);
        if r.Threw? {
          var d := onError(h + [Picked(p), Ran(item, r)], item, a, m, r.error);
          var block := [Picked(p), Ran(item, r), Classified(item, a, m, r.error, d)];
          assert h + [Picked(p)] + [Ran(item, r)] == h + [Picked(p), Ran(item, r)];
          BlockCounts(block);
          if d == Returned(true) {
            var rest := RetryFrom(m, pick, run, onError, a + 1, h + block);
            RetryFromBounded(m, pick, run, onError, a + 1, h + block);
            CountsAppend(block, rest.1);
          }
        }
      }
    }
  }

  lemma {:induction false} RetryFromShape<I, R, E>(
    m: int,
    pick: seq<Call<I, R, E>> -> Outcome<Option<I>, E>,
    run: (seq<Call<I, R, E>>, I) -> Outcome<R, E>,
    onError: (seq<Call<I, R, E>>, I, int, int, E) -> Outcome<bool, E>,
    a: int,
    h: seq<Call<I, R, E>>
  )
    ensures var t := RetryFrom(m, pick, run, onError, a, h).1;
      RunsGetPickedItem(t) && FailuresClassified(t) && ClassifiedAttempts(t, a, m)
    decreases m - a
  {
    if a <= m {
      var p := pick(h);
      if p.Returned? && p.value.Some? {
        var item := p.value.value;
        var r := run(h + [Picked(p)], item);
        if r.Threw? {
          var d := onError(h + [Picked(p), Ran(item, r)], item, a, m, r.error);
          var block := [Picked(p), Ran(item, r), Classified(item, a, m, r.error, d)];
          assert h + [Picked(p)] + [Ran(item, r)] == h + [Picked(p), Ran(item, r)];
          if d == Returned(true) {
            var rest := RetryFrom(m, pick, run, onError, a + 1, h + block).1;
            RetryFromShape(m, pick, run, onError, a + 1, h + block);
            ShapeAppend(block, rest, a, m);
          } else {
            ShapeAppend(block, [], a, m);
            assert block + [] == block;
          }
        } else {
          SuccessShape(p, item, r, a, m);
        }
      }
    }
  }

  /** The calls of an attempt whose run returns have the shape of the calls. */
  lemma SuccessShape<I, R, E>(p: Outcome<Option<I>, E>, item: I, r: Outcome<R, E>, a: int, m: int)
    requires p == Returned(Some(item)) && r.Returned?
    ensures var t := [Picked(p), Ran(item, r)];
      RunsGetPickedItem(t) && FailuresClassified(t) && ClassifiedAttempts(t, a, m)
  {
    var t := [Picked(p), Ran(item, r)];
    assert t[0].Picked? && t[1].Ran? && t[1].item == item;
  }

  /** A failed attempt: the pick, the run that threw, and the `on_error` call about it. */
  ghost predicate FailedAttempt<I, R, E>(block: seq<Call<I, R, E>>, a: int, m: int) {
    |block| == 3 && block[0].Picked? && block[1].Ran? && block[2].Classified?
    && block[0] == Picked(Returned(Some(block[1].item))) && block[1].ran.Threw?
    && block[2].item == block[1].item && block[2].error == block[1].ran.error
    && block[2].maxAttempts == m && block[2].attempt == a && a <= m
  }

  /** One failed attempt followed by the rest of the loop keeps the shape of the calls. */
  lemma ShapeAppend<I, R, E>(block: seq<Call<I, R, E>>, rest: seq<Call<I, R, E>>, a: int, m: int)
    requires FailedAttempt(block, a, m)
    requires RunsGetPickedItem(rest) && FailuresClassified(rest) && ClassifiedAttempts(rest, a + 1, m)
    ensures var t := block + rest;
      RunsGetPickedItem(t) && FailuresClassified(t) && ClassifiedAttempts(t, a, m)
  {
    RunsAppend(block, rest, a, m);
    FailuresAppend(block, rest, a, m);
    AttemptsAppend(block, rest, a, m);
  }

  lemma RunsAppend<I, R, E>(block: seq<Call<I, R, E>>, rest: seq<Call<I, R, E>>, a: int, m: int)
    requires FailedAttempt(block, a, m) && RunsGetPickedItem(rest)
    ensures RunsGetPickedItem(block + rest)
  {
    var t := block + rest;
    forall k | 0 <= k < |t| && t[k].Ran?
      ensures 0 < k && t[k - 1] == Picked(Returned(Some(t[k].item)))
    {
      if k >= 3 {
        assert t[k] == rest[k - 3];
        if k == 3 {
          assert false;
        }
        assert t[k - 1] == rest[k - 4];
      }
    }
  }

  lemma FailuresAppend<I, R, E>(block: seq<Call<I, R, E>>, rest: seq<Call<I, R, E>>, a: int, m: int)
    requires FailedAttempt(block, a, m) && FailuresClassified(rest)
    ensures FailuresClassified(block + rest)
  {
    var t := block + rest;
    forall k | 0 <= k < |t| && t[k].Ran? && t[k].ran.Threw?
      ensures k + 1 < |t| && t[k + 1].Classified? && t[k + 1].item == t[k].item && t[k + 1].error == t[k].ran.error
    {
      if k >= 3 {
        assert t[k] == rest[k - 3];
        assert t[k + 1] == rest[k - 2];
      }
    }
  }

  lemma AttemptsAppend<I, R, E>(block: seq<Call<I, R, E>>, rest: seq<Call<I, R, E>>, a: int, m: int)
    requires FailedAttempt(block, a, m) && ClassifiedAttempts(rest, a + 1, m)
    ensures ClassifiedAttempts(block + rest, a, m)
  {
    var t := block + rest;
    BlockCounts(block);
    forall k | 0 <= k < |t| && t[k].Classified?
      ensures 0 < k && t[k - 1].Ran? && t[k - 1].ran.Threw? && t[k].maxAttempts == m
        && t[k].attempt == a - 1 + CountRuns(t[..k]) && a <= t[k].attempt <= m
    {
      if k < 3 {
        assert k == 2 && t[..k] == block[..2];
      } else {
        assert t[k] == rest[k - 3];
        if k == 3 {
          assert false;
        }
        assert t[k - 1] == rest[k - 4];
        assert t[..k] == block + rest[..k - 3];
        CountsAppend(block, rest[..k - 3]);
      }
    }
  }

  lemma {:induction false} RetryFromEnds<I, R, E>(
    m: int,
    pick: seq<Call<I, R, E>> -> Outcome<Option<I>, E>,
    run: (seq<Call<I, R, E>>, I) -> Outcome<R, E>,
    onError: (seq<Call<I, R, E>>, I, int, int, E) -> Outcome<bool, E>,
    a: int,
    h: seq<Call<I, R, E>>
  )
    ensures var (res, t) := RetryFrom(m, pick, run, onError, a, h);
      res == Ending(t) && OnlyLastEnds(t)
      && (t != [] && !Ends(t[|t| - 1]) ==> t[|t| - 1].Classified? && t[|t| - 1].attempt == m)
    decreases m - a
  {
    if a <= m {
      var p := pick(h);
      if p.Returned? && p.value.Some? {
        var item := p.value.value;
        var r := run(h + [Picked(p)], item);
        if r.Threw? {
          var d := onError(h + [Picked(p), Ran(item, r)], item, a, m, r.error);
          var block := [Picked(p), Ran(item, r), Classified(item, a, m, r.error, d)];
          assert h + [Picked(p)] + [Ran(item, r)] == h + [Picked(p), Ran(item, r)];
          if d == Returned(true) {
            var rest := RetryFrom(m, pick, run, onError, a + 1, h + block);
            RetryFromEnds(m, pick, run, onError, a + 1, h + block);
            var t := block + rest.1;
            if rest.1 != [] {
              assert t[|t| - 1] == rest.1[|rest.1| - 1];
              forall k | 0 <= k < |t| - 1 ensures !Ends(t[k]) {
                if k >= 3 {
                  assert t[k] == rest.1[k - 3];
                }
              }
            } else {
              assert a + 1 > m by {
                RetryFromBounded(m, pick, run, onError, a + 1, h + block);
              }
              assert t == block;
            }
          }
        }
      }
    }
  }

  lemma {:induction false} RetryFromAllFail<I, R, E>(
    m: int,
    pick: seq<Call<I, R, E>> -> Outcome<Option<I>, E>,
    run: (seq<Call<I, R, E>>, I) -> Outcome<R, E>,
    onError: (seq<Call<I, R, E>>, I, int, int, E) -> Outcome<bool, E>,
    a: int,
    h: seq<Call<I, R, E>>
  )
    requires forall hist :: pick(hist).Returned? && pick(hist).value.Some?
    requires forall hist: seq<Call<I, R, E>>, item: I {:trigger run(hist, item)} :: run(hist, item).Threw?
    requires forall hist, item, n, max, e :: onError(hist, item, n, max, e) == Returned(true)
    ensures var (res, t) := RetryFrom(m, pick, run, onError, a, h);
      res == NoResult && CountRuns(t) == (if a <= m then m - a + 1 else 0)
    decreases m - a
  {
    if a <= m {
      var p := pick(h);
      assert p.Returned? && p.value.Some?;
      var item: I :| item == p.value.value;
      var r := run(h + [Picked(p)], item);
      assert r.Threw?;
      var err: E :| err == r.error;
      var d := onError(h + [Picked(p), Ran(item, r)], item, a, m, err);
      assert d == Returned(true);
      var block := [Picked(p), Ran(item, r), Classified(item, a, m, err, d)];
      assert h + [Picked(p)] + [Ran(item, r)] == h + [Picked(p), Ran(item, r)];
      var rest := RetryFrom(m, pick, run, onError, a + 1, h + block);
      RetryFromAllFail(m, pick, run, onError, a + 1, h + block);
      BlockCounts(block);
      CountsAppend(block, rest.1);
    }
  }

  // ---------------------------------------------------------------------------
  // What `retry_with_item` promises

  /**
   * `pick_item` and `run` are each called at most `max_attempts` times, `run`
   * no more often than `pick_item`, and with `max_attempts <= 0` nothing is
   * called and the result is `None`.
   */
  lemma RetryCallsBounded<I, R, E>(
    m: int,
    pick: seq<Call<I, R, E>> -> Outcome<Option<I>, E>,
    run: (seq<Call<I, R, E>>, I) -> Outcome<R, E>,
    onError: (seq<Call<I, R, E>>, I, int, int, E) -> Outcome<bool, E>
  )
    ensures var t := Retry(m, pick, run, onError).1;
      CountRuns(t) <= CountPicks(t) <= (if m > 0 then m else 0)
    ensures m <= 0 ==> Retry(m, pick, run, onError).0 == NoResult && Retry(m, pick, run, onError).1 == []
  {
    RetryFromBounded(m, pick, run, onError, 1, []);
  }

  /**
   * Every `run` call gets exactly the item the `pick_item` call just before it
   * returned; every failed run is followed by one `on_error` call with that
   * item, that exception, the attempt number (from 1, at most `max_attempts`)
   * and `max_attempts`; and `on_error` is called at no other time.
   */
  lemma RetryCallOrder<I, R, E>(
    m: int,
    pick: seq<Call<I, R, E>> -> Outcome<Option<I>, E>,
    run: (seq<Call<I, R, E>>, I) -> Outcome<R, E>,
    onError: (seq<Call<I, R, E>>, I, int, int, E) -> Outcome<bool, E>
  )
    ensures var t := Retry(m, pick, run, onError).1;
      RunsGetPickedItem(t) && FailuresClassified(t) && ClassifiedAttempts(t, 1, m)
  {
    RetryFromShape(m, pick, run, onError, 1, []);
  }

  /**
   * The loop stops at the first call that ends it: a `pick_item` that yields
   * `None` (result `None`), a `run` that returns (its result, unchanged), an
   * `on_error` that says False (the same exception is raised) or that raises
   * (its exception is raised), or any callback that raises. Nothing is called
   * after that call. It also stops, with `None`, after an `on_error` that
   * says True on the last attempt, and then `run` has been called exactly
   * `max_attempts` times.
   */
  lemma RetryStopsAtFirstEnd<I, R, E>(
    m: int,
    pick: seq<Call<I, R, E>> -> Outcome<Option<I>, E>,
    run: (seq<Call<I, R, E>>, I) -> Outcome<R, E>,
    onError: (seq<Call<I, R, E>>, I, int, int, E) -> Outcome<bool, E>
  )
    ensures var (res, t) := Retry(m, pick, run, onError);
      res == Ending(t) && OnlyLastEnds(t)
      && (t != [] && !Ends(t[|t| - 1]) ==> t[|t| - 1].Classified? && CountRuns(t) == m)
  {
    var (res, t) := Retry(m, pick, run, onError);
    RetryFromEnds(m, pick, run, onError, 1, []);
    if t != [] && !Ends(t[|t| - 1]) {
      var n := |t| - 1;
      RetryFromShape(m, pick, run, onError, 1, []);
      assert t[n].attempt == CountRuns(t[..n]);
      assert t == t[..n] + [t[n]];
      CountsAppend(t[..n], [t[n]]);
      CountsOfOne(t[n]);
    }
  }

  /** The first `run` that returns ends the loop, and its result is returned unchanged. */
  lemma RetryFirstSuccessWins<I, R, E>(
    m: int,
    pick: seq<Call<I, R, E>> -> Outcome<Option<I>, E>,
    run: (seq<Call<I, R, E>>, I) -> Outcome<R, E>,
    onError: (seq<Call<I, R, E>>, I, int, int, E) -> Outcome<bool, E>,
    k: int
  )
    requires var t := Retry(m, pick, run, onError).1;
      0 <= k < |t| && t[k].Ran? && t[k].ran.Returned?
    ensures var (res, t) := Retry(m, pick, run, onError);
      k == |t| - 1 && res == Success(t[k].ran.value)
  {
    RetryStopsAtFirstEnd(m, pick, run, onError);
  }

  /** A `pick_item` that yields `None` ends the loop at once with `None`. */
  lemma RetryNoItemStops<I, R, E>(
    m: int,
    pick: seq<Call<I, R, E>> -> Outcome<Option<I>, E>,
    run: (seq<Call<I, R, E>>, I) -> Outcome<R, E>,
    onError: (seq<Call<I, R, E>>, I, int, int, E) -> Outcome<bool, E>,
    k: int
  )
    requires var t := Retry(m, pick, run, onError).1;
      0 <= k < |t| && t[k] == Picked(Returned(None))
    ensures var (res, t) := Retry(m, pick, run, onError);
      k == |t| - 1 && res == NoResult
  {
    RetryStopsAtFirstEnd(m, pick, run, onError);
  }

  /** When `on_error` says False, the exception of that `run` propagates and nothing more is called. */
  lemma RetryRefusalRaises<I, R, E>(
    m: int,
    pick: seq<Call<I, R, E>> -> Outcome<Option<I>, E>,
    run: (seq<Call<I, R, E>>, I) -> Outcome<R, E>,
    onError: (seq<Call<I, R, E>>, I, int, int, E) -> Outcome<bool, E>,
    k: int
  )
    requires var t := Retry(m, pick, run, onError).1;
      0 <= k < |t| && t[k].Classified? && t[k].decision == Returned(false)
    ensures var (res, t) := Retry(m, pick, run, onError);
      k == |t| - 1 && 0 < k && t[k - 1].Ran? && t[k - 1].ran.Threw? && res == Raised(t[k - 1].ran.error)
  {
    RetryStopsAtFirstEnd(m, pick, run, onError);
    RetryCallOrder(m, pick, run, onError);
  }

  /**
   * The result is `None` only when nothing was called (`max_attempts <= 0`),
   * when `pick_item` yielded `None`, or when all `max_attempts` runs failed
   * and `on_error` said True each time.
   */
  lemma RetryNoResultCauses<I, R, E>(
    m: int,
    pick: seq<Call<I, R, E>> -> Outcome<Option<I>, E>,
    run: (seq<Call<I, R, E>>, I) -> Outcome<R, E>,
    onError: (seq<Call<I, R, E>>, I, int, int, E) -> Outcome<bool, E>
  )
    ensures var (res, t) := Retry(m, pick, run, onError);
      res == NoResult ==>
        (t == [] && m <= 0)
        || t[|t| - 1] == Picked(Returned(None))
        || (t[|t| - 1].Classified? && t[|t| - 1].decision == Returned(true) && CountRuns(t) == m)
  {
    RetryStopsAtFirstEnd(m, pick, run, onError);
    RetryCallsBounded(m, pick, run, onError);
    RetryFromBounded(m, pick, run, onError, 1, []);
  }

  /**
   * If every run fails and `on_error` always says True, while `pick_item`
   * always has an item, the result is `None` after exactly `max_attempts` runs.
   */
  lemma RetryAllAttemptsFail<I, R, E>(
    m: int,
    pick: seq<Call<I, R, E>> -> Outcome<Option<I>, E>,
    run: (seq<Call<I, R, E>>, I) -> Outcome<R, E>,
    onError: (seq<Call<I, R, E>>, I, int, int, E) -> Outcome<bool, E>
  )
    requires forall hist :: pick(hist).Returned? && pick(hist).value.Some?
    requires forall hist: seq<Call<I, R, E>>, item: I {:trigger run(hist, item)} :: run(hist, item).Threw?
    requires forall hist, item, n, max, e :: onError(hist, item, n, max, e) == Returned(true)
    ensures var (res, t) := Retry(m, pick, run, onError);
      res == NoResult && CountRuns(t) == (if m > 0 then m else 0)
  {
    RetryFromAllFail(m, pick, run, onError, 1, []);
  }

  /**
   * With three attempts, a fixed item, and a `run` that fails on its first two
   * calls and then returns `v`, the result is `v` after exactly three runs.
   */
  lemma RetrySucceedsOnThirdRun<I, R, E>(x: I, v: R, e: E)
    ensures var (res, t) := Retry(3,
        (hist: seq<Call<I, R, E>>) => Returned(Some(x)),
        (hist: seq<Call<I, R, E>>, item: I) => if CountRuns(hist) < 2 then Threw(e) else Returned(v),
        (hist: seq<Call<I, R, E>>, item: I, n: int, max: int, err: E) => Returned(true));
      res == Success(v) && CountRuns(t) == 3
  {
    var pick := (hist: seq<Call<I, R, E>>) => Returned(Some(x));
    var run := (hist: seq<Call<I, R, E>>, item: I) => if CountRuns(hist) < 2 then Threw(e) else Returned(v);
    var onError := (hist: seq<Call<I, R, E>>, item: I, n: int, max: int, err: E) => Returned(true);
    var p := Returned(Some(x));
    var fail := [Picked(p), Ran(x, Threw(e)), Classified(x, 1, 3, e, Returned(true))];
    var fail2 := [Picked(p), Ran(x, Threw(e)), Classified(x, 2, 3, e, Returned(true))];
    var win := [Picked(p), Ran(x, Returned(v))];
    BlockCounts(fail);
    BlockCounts(fail2);
    BlockCounts(win);
    CountsOfOne<I, R, E>(Picked(p));
    // third attempt: two runs so far, so this one returns
    var h3 := fail + fail2;
    CountsAppend(fail, fail2);
    CountsAppend(h3, [Picked(p)]);
    assert RetryFrom(3, pick, run, onError, 3, h3) == (Success(v), win);
    // second attempt: one run so far, so this one fails
    CountsAppend(fail, [Picked(p)]);
    assert RetryFrom(3, pick, run, onError, 2, fail) == (Success(v), fail2 + win);
    // first attempt: no run yet, so this one fails
    var none: seq<Call<I, R, E>> := [];
    assert none + [Picked(p)] == [Picked(p)] && none + fail == fail;
    assert RetryFrom(3, pick, run, onError, 1, []) == (Success(v), fail + (fail2 + win));
    CountsAppend(fail2, win);
    CountsAppend(fail, fail2 + win);
  }
}
