/**
 The request rate cap of one helper connection (native/display-helper/Runtime.swift, lines 82-86):
 windows open on demand, at least one second apart, and the 201st request of a window is refused.
 */
module RequestRate {
  import opened Outcomes

  /** The window a connection is in: when it opened and how many requests it has seen. */
  datatype Rate = Rate(start: real, count: nat)

  const LIMIT := 200

  function Admit(previous: Option<Rate>, now: real): Rate {
    var rate := if previous.Some? then previous.value else Rate(now, 0);
    if now - rate.start >= 1.0 then Rate(now, 1) else Rate(rate.start, rate.count + 1)
  }

  /** The window after a list of processed requests. */
  function Window(times: seq<real>): Option<Rate> {
    if times == [] then None
    else Some(Admit(Window(times[..|times| - 1]), times[|times| - 1]))
  }

  /** Requests that were all processed, in the order of a clock that never runs backwards. */
  ghost predicate Served(times: seq<real>) {
    times == [] ||
    (var front, now := times[..|times| - 1], times[|times| - 1];
     && Served(front)
     && (front != [] ==> front[|front| - 1] <= now)
     && Admit(Window(front), now).count <= LIMIT)
  }

  /** The number of windows opened after request `i`, up to and including request `j`. */
  function Opened(times: seq<real>, i: nat, j: nat): nat
    requires i <= j < |times|
    decreases j
  {
    if i == j then 0
    else
      Opened(times, i, j - 1)
      + if times[j] - Window(times[..j]).value.start >= 1.0 then 1 else 0
  }

  lemma {:induction false} ServedPrefix(times: seq<real>, k: nat)
    requires Served(times) && k <= |times|
    ensures Served(times[..k])
    decreases |times|
  {
    if k < |times| {
      ServedPrefix(times[..|times| - 1], k);
      assert times[..|times| - 1][..k] == times[..k];
    } else {
      assert times[..k] == times;
    }
  }

  /** The window of the request at `k`, and the fact that it opened at most a second before. */
  lemma WindowAt(times: seq<real>, k: nat)
    requires Served(times) && k < |times|
    ensures var w := Window(times[..k + 1]);
            && w == Some(Admit(Window(times[..k]), times[k]))
            && 1 <= w.value.count <= LIMIT
            && w.value.start <= times[k] < w.value.start + 1.0
            && (k > 0 ==> times[k - 1] <= times[k])
  {
    ServedPrefix(times, k + 1);
    var upTo := times[..k + 1];
    assert upTo[..|upTo| - 1] == times[..k];
    WindowStartsBefore(times[..k], times[k]);
  }

  lemma {:induction false} WindowStartsBefore(times: seq<real>, now: real)
    requires Served(times)
    requires times != [] ==> times[|times| - 1] <= now
    ensures times != [] ==> Window(times).value.start <= now
  {
    if times != [] {
      WindowStartsBefore(times[..|times| - 1], times[|times| - 1]);
    }
  }

  /** Each opened window stands for at most 200 requests and at least one second. */
  lemma {:induction false} WindowsBound(times: seq<real>, i: nat, j: nat)
    requires Served(times) && i <= j < |times|
    ensures var n := Opened(times, i, j);
            var a, b := Window(times[..i + 1]).value, Window(times[..j + 1]).value;
            && j - i <= LIMIT * n + b.count - a.count
            && times[i] <= times[j]
            && (n == 0 ==> b.start == a.start)
            && (n > 0 ==> b.start > times[i] + (n - 1) as real)
    decreases j
  {
    WindowAt(times, j);
    if i < j {
      WindowAt(times, i);
      WindowAt(times, j - 1);
      WindowsBound(times, i, j - 1);
      assert times[..(j - 1) + 1] == times[..j];
    }
  }

  /** 200 times `n` requests further on, more than `n - 1` seconds have passed. */
  lemma Spacing(times: seq<real>, i: nat, n: nat)
    requires Served(times) && n > 0 && i + LIMIT * n < |times|
    ensures times[i + LIMIT * n] - times[i] > (n - 1) as real
  {
    var j := i + LIMIT * n;
    WindowsBound(times, i, j);
    WindowAt(times, i);
    WindowAt(times, j);
    var windows := Opened(times, i, j);
    assert windows >= n;
    assert (windows - 1) as real >= (n - 1) as real;
  }

  function Ceiling(t: real): int {
    if t.Floor as real == t then t.Floor else t.Floor + 1
  }

  lemma Ordered(times: seq<real>, i: nat, j: nat)
    requires Served(times) && i <= j < |times|
    ensures times[i] <= times[j]
  {
    WindowsBound(times, i, j);
  }

  /** Two processed requests at most `span` seconds apart have fewer than 200 * (ceil(span) + 1) between them. */
  lemma CloseTogether(times: seq<real>, i: nat, j: nat, span: real)
    requires Served(times) && i <= j < |times|
    requires times[j] - times[i] <= span && span >= 0.0
    ensures j - i < LIMIT * (Ceiling(span) + 1)
  {
    var n: nat := Ceiling(span) + 1;
    if j - i >= LIMIT * n {
      Spacing(times, i, n);
      Ordered(times, i + LIMIT * n, j);
      assert false;
    }
  }

  ghost function Within(times: seq<real>, from: real, span: real): set<nat> {
    set k: nat | k < |times| && from <= times[k] <= from + span
  }

  lemma {:induction false} RangeSize(s: set<nat>, i: nat, j: nat)
    requires forall k :: k in s ==> i <= k < j
    requires i <= j
    ensures |s| <= j - i
    decreases j - i
  {
    if i == j {
      assert s == {};
    } else {
      RangeSize(s - {j - 1}, i, j - 1);
      if j - 1 in s { assert |s| == |s - {j - 1}| + 1; } else { assert s - {j - 1} == s; }
    }
  }

  lemma {:induction false} Extremes(s: set<nat>) returns (low: nat, high: nat)
    requires s != {}
    ensures low in s && high in s && forall k :: k in s ==> low <= k <= high
    decreases s
  {
    var k :| k in s;
    if s == {k} {
      return k, k;
    }
    low, high := Extremes(s - {k});
    assert forall x :: x in s ==> x == k || x in s - {k};
    low, high := if k < low then k else low, if k > high then k else high;
  }

  /** In any interval of length `span` at most 200 * (ceil(span) + 1) requests are processed. */
  lemma RateBound(times: seq<real>, from: real, span: real)
    requires Served(times) && span >= 0.0
    ensures |Within(times, from, span)| <= LIMIT * (Ceiling(span) + 1)
  {
    var s := Within(times, from, span);
    if s != {} {
      var i, j := Extremes(s);
      CloseTogether(times, i, j, span);
      RangeSize(s, i, j + 1);
    }
  }

  // ----- Exactly which requests are refused -----

  /** The request that opened the current window: the first, or the first at least a second after the last such one. */
  function Opener(times: seq<real>): nat {
    if |times| <= 1 then 0
    else
      var earlier := Opener(times[..|times| - 1]);
      if earlier < |times| && times[|times| - 1] - times[earlier] >= 1.0 then |times| - 1 else earlier
  }

  /** The rate kept for a connection is when its current window opened, and how many requests it has seen. */
  lemma {:induction false} WindowExact(times: seq<real>)
    requires times != []
    ensures Opener(times) < |times|
    ensures Window(times) == Some(Rate(times[Opener(times)], |times| - Opener(times)))
  {
    if |times| == 1 {
      assert times[..0] == [];
      assert Window([]) == None;
    } else {
      WindowExact(times[..|times| - 1]);
    }
  }

  /** Processing one more request would be its window's 201st within a second of the window's first. */
  predicate Busy(times: seq<real>, now: real) {
    times != [] && Opener(times) < |times| && now - times[Opener(times)] < 1.0 && |times| - Opener(times) >= 200
  }

  /** A request is refused exactly when 200 of its window, which opened less than a second ago, were processed. */
  lemma RefusedExact(times: seq<real>, now: real)
    ensures Admit(Window(times), now).count > LIMIT <==> Busy(times, now)
  {
    if times != [] { WindowExact(times); }
  }

  /** So a connection that had fewer than 200 requests processed within the last second is never refused. */
  lemma QuietNeverRefused(times: seq<real>, now: real)
    requires Served(times)
    requires |times| >= 200 ==> now - times[|times| - 200] >= 1.0
    ensures Admit(Window(times), now).count <= LIMIT
  {
    RefusedExact(times, now);
    if times != [] {
      WindowExact(times);
      if |times| - Opener(times) >= 200 { Ordered(times, Opener(times), |times| - 200); }
    }
  }

  /** Two hundred requests at one moment are all processed, and the next one is not. */
  lemma {:induction false} TwoHundredServed(now: real, n: nat)
    ensures Served(seq(n, _ => now)) <==> n <= 200
    ensures n > 0 ==> Opener(seq(n, _ => now)) == 0
  {
    if n > 0 {
      var all := seq(n, _ => now);
      TwoHundredServed(now, n - 1);
      assert all[..n - 1] == seq(n - 1, _ => now);
      RefusedExact(all[..n - 1], now);
    }
  }
}
