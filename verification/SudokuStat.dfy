/** Requests and latencies of the last seconds, in two rings that move with the clock. */
module SudokuStat {

  const SECONDS := 60
  const MICROSECONDS := 1000000

  /** A response as it was recorded: when it was sent and how long it took. */
  datatype Response = Response(second: int, elapsed: nat)

  // ---------- plain counts over everything recorded ----------

  function Count(log: seq<Response>, second: int): nat {
    if log == [] then 0 else Count(log[..|log| - 1], second) + (if log[|log| - 1].second == second then 1 else 0)
  }

  function Latency(log: seq<Response>, second: int): nat {
    if log == [] then 0
    else Latency(log[..|log| - 1], second) + (if log[|log| - 1].second == second then log[|log| - 1].elapsed else 0)
  }

  /** How many responses came in the seconds first, first + 1, ..., first + n - 1. */
  function CountBetween(log: seq<Response>, first: int, n: nat): nat {
    if log == [] then 0
    else CountBetween(log[..|log| - 1], first, n) + (if first <= log[|log| - 1].second < first + n then 1 else 0)
  }

  lemma {:induction false} CountsAfter(log: seq<Response>, second: int)
    requires forall r <- log :: r.second < second
    ensures Count(log, second) == 0 && Latency(log, second) == 0
  {
    if log != [] {
      CountsAfter(log[..|log| - 1], second);
    }
  }

  lemma {:induction false} CountBetweenSplits(log: seq<Response>, first: int, n: nat)
    ensures CountBetween(log, first, n + 1) == CountBetween(log, first, n) + Count(log, first + n)
    ensures CountBetween(log, first, 0) == 0
  {
    if log != [] {
      CountBetweenSplits(log[..|log| - 1], first, n);
    }
  }

  lemma CountsLast(log: seq<Response>, r: Response, second: int)
    ensures Count(log + [r], second) == Count(log, second) + (if r.second == second then 1 else 0)
    ensures Latency(log + [r], second) == Latency(log, second) + (if r.second == second then r.elapsed else 0)
  {
    assert (log + [r])[..|log|] == log;
  }

  // ---------- the window ----------

  /** A ring of SECONDS places: what is pushed on a full one drops the oldest. */
  function PushBack(ring: seq<int>, x: int): seq<int> {
    (if |ring| == SECONDS then ring[1..] else ring) + [x]
  }

  /** The rings hold, for each second of the window, the count and the latency sum of everything
      recorded for it, and nothing was recorded for a later second. */
  ghost predicate Matches(log: seq<Response>, last: int, requests: seq<int>, latencies: seq<int>) {
    && |requests| == |latencies| <= SECONDS
    && (forall r <- log :: r.second <= last)
    && (forall i :: 0 <= i < |requests| ==> requests[i] == Count(log, last - |requests| + 1 + i))
    && (forall i :: 0 <= i < |latencies| ==> latencies[i] == Latency(log, last - |latencies| + 1 + i))
  }

  lemma PushMatches(log: seq<Response>, last: int, requests: seq<int>, latencies: seq<int>)
    requires Matches(log, last, requests, latencies)
    ensures Matches(log, last + 1, PushBack(requests, 0), PushBack(latencies, 0))
  {
    CountsAfter(log, last + 1);
  }

  lemma FreshMatches(log: seq<Response>, last: int)
    requires forall r <- log :: r.second < last
    ensures Matches(log, last, PushBack([], 0), PushBack([], 0))
  {
    CountsAfter(log, last);
  }

  /** Counting a response for place i of the window. */
  lemma AddMatches(log: seq<Response>, last: int, requests: seq<int>, latencies: seq<int>, r: Response, i: int)
    requires Matches(log, last, requests, latencies) && 0 <= i < |requests| && r.second == last - |requests| + 1 + i
    ensures Matches(log + [r], last, requests[i := requests[i] + 1], latencies[i := latencies[i] + r.elapsed])
  {
    forall s: int
      ensures Count(log + [r], s) == Count(log, s) + (if r.second == s then 1 else 0)
      ensures Latency(log + [r], s) == Latency(log, s) + (if r.second == s then r.elapsed else 0)
    {
      CountsLast(log, r, s);
    }
  }

  /** A response for a second before the window changes nothing in it. */
  lemma DiscardMatches(log: seq<Response>, last: int, requests: seq<int>, latencies: seq<int>, r: Response)
    requires Matches(log, last, requests, latencies) && r.second <= last - |requests| && |requests| > 0
    ensures Matches(log + [r], last, requests, latencies)
  {
    forall s: int
      ensures Count(log + [r], s) == Count(log, s) + (if r.second == s then 1 else 0)
      ensures Latency(log + [r], s) == Latency(log, s) + (if r.second == s then r.elapsed else 0)
    {
      CountsLast(log, r, s);
    }
  }

  function SecondOf(timestamp: nat): nat { timestamp / MICROSECONDS }

  /** How many seconds the window covers after a response for the given second. */
  function WindowSize(last: int, size: nat, second: int): nat {
    if second <= last then size
    else if last == 0 || second >= last + SECONDS then 1
    else if size + (second - last) > SECONDS then SECONDS
    else size + (second - last)
  }

  /** The last second and the size of the window after some responses. */
  function Window(log: seq<Response>): (int, nat) {
    if log == [] then (0, 0)
    else
      var (last, size) := Window(log[..|log| - 1]);
      var second := log[|log| - 1].second;
      (if second <= last then last else second, WindowSize(last, size, second))
  }

  /** The latest second for which a response came. */
  function Latest(log: seq<Response>): int {
    if log == [] then 0
    else if log[|log| - 1].second > Latest(log[..|log| - 1]) then log[|log| - 1].second else Latest(log[..|log| - 1])
  }

  /** The second with which the responses began, or began again 60 seconds or more after those before. */
  function Beginning(log: seq<Response>): int {
    if log == [] then 0
    else if |log| == 1 || log[|log| - 1].second >= Latest(log[..|log| - 1]) + 60 then log[|log| - 1].second
    else Beginning(log[..|log| - 1])
  }

  /** The window goes back to that second, but covers 60 seconds at most. */
  lemma {:induction false} WindowIs(log: seq<Response>)
    requires log != [] && forall r <- log :: r.second > 0
    ensures
      var (last, first) := (Latest(log), Beginning(log));
      0 < first <= last && Window(log) == (last, if last - first + 1 < 60 then last - first + 1 else 60)
    decreases |log|
  {
    var front := log[..|log| - 1];
    assert log[|log| - 1] in log;
    if front == [] {
      assert |log| == 1 && Window(front) == (0, 0) && Latest(front) == 0;
    } else {
      WindowIs(front);
    }
  }

  class SudokuStat {
    var lastSecond: int
    var requests: seq<int>
    var latencies: seq<int>
    var totalRequests: nat
    var totalResponses: nat
    var totalSolved: nat
    var badRequests: nat
    var droppedRequests: nat
    var totalLatency: nat
    var badLatency: nat
    ghost var log: seq<Response>

    ghost predicate Valid()
      reads this
    {
      && Matches(log, lastSecond, requests, latencies)
      && (lastSecond == 0 <==> requests == []) && lastSecond >= 0 && (requests == [] ==> log == [])
    }

    /** The rings cover the window of what was recorded. */
    ghost predicate Covers()
      reads this
    {
      Window(log) == (lastSecond, |requests|)
    }

    /** The first second that the rings still cover. */
    function FirstSecond(): int
      reads this
    {
      lastSecond - |requests| + 1
    }

    constructor ()
      ensures Valid() && Covers() && log == [] && lastSecond == 0
    {
      lastSecond, requests, latencies, log := 0, [], [], [];
      totalRequests, totalResponses, totalSolved, badRequests, droppedRequests := 0, 0, 0, 0, 0;
      totalLatency, badLatency := 0, 0;
    }

    /** Everything starts anew but the dropped requests. */
    method Reset()
      requires Valid()
      modifies this
      ensures Valid() && Covers() && log == [] && lastSecond == 0
      ensures totalRequests == totalResponses == totalSolved == badRequests == totalLatency == badLatency == 0
      ensures droppedRequests == old(droppedRequests)
    {
      lastSecond, requests, latencies, log := 0, [], [], [];
      totalRequests, totalResponses, totalSolved, badRequests := 0, 0, 0, 0;
      totalLatency, badLatency := 0, 0;
    }

    method PushBackZero()
      modifies this`requests, this`latencies
      ensures requests == PushBack(old(requests), 0) && latencies == PushBack(old(latencies), 0)
    {
      requests := PushBack(requests, 0);
      latencies := PushBack(latencies, 0);
    }

    /** Counts a response in place idx. */
    method AddAt(idx: int, r: Response)
      requires Valid() && 0 <= idx < |requests| && r.second == FirstSecond() + idx
      modifies this`requests, this`latencies, this`log
      ensures Valid() && log == old(log) + [r] && |requests| == old(|requests|)
    {
      AddMatches(log, lastSecond, requests, latencies, r, idx);
      requests := requests[idx := requests[idx] + 1];
      latencies := latencies[idx := latencies[idx] + r.elapsed];
      log := log + [r];
    }

    /** The window moves on to a later second, with nothing counted for the seconds it gains. */
    method Advance(second: int)
      requires Valid() && second > lastSecond
      modifies this`requests, this`latencies, this`lastSecond
      ensures Valid() && lastSecond == second && |requests| > 0
      ensures |requests| == WindowSize(old(lastSecond), old(|requests|), second)
      ensures old(lastSecond) > 0 ==> FirstSecond() >= old(FirstSecond())
    {
      if lastSecond + 1 == second || lastSecond == 0 {
        if lastSecond == 0 { FreshMatches(log, second); } else { PushMatches(log, lastSecond, requests, latencies); }
        lastSecond := second;
        PushBackZero();
      } else if second < lastSecond + SECONDS {
        while lastSecond < second
          invariant Valid() && 0 < lastSecond <= second
          invariant FirstSecond() >= old(FirstSecond())
          invariant |requests| == WindowSize(old(lastSecond), old(|requests|), lastSecond)
        {
          PushMatches(log, lastSecond, requests, latencies);
          PushBackZero();
          lastSecond := lastSecond + 1;
        }
      } else {
        FreshMatches(log, second);
        requests, latencies := [], [];
        lastSecond := second;
        PushBackZero();
      }
    }

    /** Timestamps are microseconds since the epoch; the response is sent after its first second. */
    method RecordResponse(now: nat, receive: nat, solved: bool)
      requires Valid() && Covers() && SecondOf(now) > 0
      modifies this
      ensures Valid() && Covers()
      ensures log == if now < receive then old(log) else old(log) + [Response(now / 1_000_000, now - receive)]
      ensures old(lastSecond) > 0 ==> FirstSecond() >= old(FirstSecond())
      ensures now >= receive ==> |requests| == WindowSize(old(lastSecond), old(|requests|), SecondOf(now))
      ensures now < receive ==> requests == old(requests) && latencies == old(latencies)
      ensures lastSecond == if now < receive || SecondOf(now) < old(lastSecond) then old(lastSecond) else SecondOf(now)
      ensures totalResponses == old(totalResponses) + 1 && totalSolved == old(totalSolved) + (if solved then 1 else 0)
      ensures totalLatency == old(totalLatency) + (if now < receive then 0 else now - receive)
      ensures badLatency == old(badLatency) + (if now < receive then 1 else 0)
    {
      var second := SecondOf(now);
      totalResponses := totalResponses + 1;
      if solved {
        totalSolved := totalSolved + 1;
      }
      if now < receive {
        badLatency := badLatency + 1;
        return;
      }
      var r := Response(second, now - receive);
      assert (log + [r])[..|log|] == log;
      totalLatency := totalLatency + (now - receive);
      if lastSecond == second {
        AddAt(|requests| - 1, r);
      } else if second > lastSecond {
        Advance(second);
        AddAt(|requests| - 1, r);
      } else if second >= FirstSecond() {
        AddAt(second - FirstSecond(), r);
      } else {
        DiscardMatches(log, lastSecond, requests, latencies, r);
        log := log + [r];
      }
    }

    /** The sum that the report calls requests_60s: all responses of the seconds in the window. */
    method RequestsInWindow() returns (sum: int)
      requires Valid()
      ensures sum == CountBetween(log, FirstSecond(), |requests|)
    {
      sum := 0;
      CountBetweenSplits(log, FirstSecond(), 0);
      for i := 0 to |requests|
        invariant sum == CountBetween(log, FirstSecond(), i)
      {
        CountBetweenSplits(log, FirstSecond(), i);
        sum := sum + requests[i];
      }
    }
  }
}
