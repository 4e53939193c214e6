/**
 Fixed-window rate limiting: each key has a window that opens with a call and admits a
 number of calls until it has been open for its whole length.  On a clock that does not
 go back, windows of one key do not overlap, which bounds what any interval admits.
 */
module RateWindows {
  import opened Common

  type Id = nat
  datatype Window = Window(started: int, count: int)

  // One call: a missing or expired window opens anew and admits, a full one refuses.
  function Consume(w: Option<Window>, limit: int, length: int, now: int): (Option<Window>, bool) {
    if w.None? || now - w.value.started >= length then (Some(Window(now, 1)), true)
    else if w.value.count >= limit then (w, false)
    else (Some(Window(w.value.started, w.value.count + 1)), true)
  }

  // A call and, when it was admitted, the window it was admitted in.
  datatype Call = Call(time: int, admitted: bool, started: int)
  datatype History = History(window: Option<Window>, calls: seq<Call>)

  // What is asked: when, and how many calls the caller lets a window admit.
  datatype Request = Request(time: int, limit: int)

  // The calls of one key, from no window at all or from one that is open and has counted nothing.
  function Run(first: Option<Window>, requests: seq<Request>, length: int): (h: History)
    ensures |h.calls| == |requests|
    ensures requests != [] || first.Some? ==> h.window.Some?
  {
    if requests == [] then History(first, [])
    else
      var before := Run(first, requests[..|requests| - 1], length);
      var last := requests[|requests| - 1];
      var (w, admitted) := Consume(before.window, last.limit, length, last.time);
      History(w, before.calls + [Call(last.time, admitted, w.value.started)])
  }

  predicate NonDecreasing(requests: seq<Request>) {
    forall i, j :: 0 <= i < j < |requests| ==> requests[i].time <= requests[j].time
  }

  // A clock that does not go back, nor before the opening of the first window, which has counted nothing.
  predicate Runs(first: Option<Window>, requests: seq<Request>) {
    NonDecreasing(requests)
    && (first.Some? ==> first.value.count == 0 && forall i :: 0 <= i < |requests| ==> first.value.started <= requests[i].time)
  }

  predicate LimitsWithin(requests: seq<Request>, cap: int) {
    forall i :: 0 <= i < |requests| ==> requests[i].limit <= cap
  }

  // What one window may admit: a limit below one still lets the opening call through.
  function Most(cap: int): (m: nat)
    ensures m >= 1
  {
    if cap < 1 then 1 else cap
  }

  // ----- Counting -----

  function AdmittedIn(calls: seq<Call>, started: int): nat {
    if calls == [] then 0
    else
      var last := calls[|calls| - 1];
      AdmittedIn(calls[..|calls| - 1], started) + if last.admitted && last.started == started then 1 else 0
  }

  predicate Between(c: Call, from: int, to: int) {
    c.admitted && from <= c.time < to
  }

  function AdmittedBetween(calls: seq<Call>, from: int, to: int): nat {
    if calls == [] then 0
    else AdmittedBetween(calls[..|calls| - 1], from, to) + if Between(calls[|calls| - 1], from, to) then 1 else 0
  }

  // Of those, the ones whose window was open before the interval, or opened in it.
  function AdmittedPart(calls: seq<Call>, from: int, to: int, early: bool): nat {
    if calls == [] then 0
    else
      var last := calls[|calls| - 1];
      AdmittedPart(calls[..|calls| - 1], from, to, early) + if Between(last, from, to) && (last.started < from) == early then 1 else 0
  }

  lemma {:induction false} PartsAddUp(calls: seq<Call>, from: int, to: int)
    ensures AdmittedBetween(calls, from, to) == AdmittedPart(calls, from, to, true) + AdmittedPart(calls, from, to, false)
  {
    if calls != [] { PartsAddUp(calls[..|calls| - 1], from, to); }
  }

  // ----- The invariant -----

  ghost predicate Opened(calls: seq<Call>, started: int) {
    exists i :: 0 <= i < |calls| && calls[i].admitted && calls[i].time == started && calls[i].started == started
  }

  // Opened by a call, or the window there was at first.
  ghost predicate OpenedBy(first: Option<Window>, calls: seq<Call>, started: int) {
    (first.Some? && started == first.value.started) || Opened(calls, started)
  }

  // The current window counts its calls; every admitted call lies in its window, which it or an earlier call
  // opened; windows are a length apart.
  ghost predicate Kept(first: Option<Window>, h: History, cap: int, length: int) {
    && (h.window.None? ==> h.calls == [] && first.None?)
    && (h.window.Some? ==> OpenedBy(first, h.calls, h.window.value.started) && (first.Some? ==> first.value.started <= h.window.value.started))
    && (h.window.Some? ==> h.window.value.count == AdmittedIn(h.calls, h.window.value.started) <= Most(cap)
                           && forall i :: 0 <= i < |h.calls| && h.calls[i].admitted ==> h.calls[i].started <= h.window.value.started)
    && (forall x :: AdmittedIn(h.calls, x) <= Most(cap))
    && (forall i :: 0 <= i < |h.calls| && h.calls[i].admitted ==>
          h.calls[i].started <= h.calls[i].time < h.calls[i].started + length && OpenedBy(first, h.calls, h.calls[i].started))
    && (first.Some? ==> forall i :: 0 <= i < |h.calls| && h.calls[i].admitted ==> first.value.started <= h.calls[i].started)
    && Apart(h.calls, length)
  }

  ghost predicate Apart(calls: seq<Call>, length: int) {
    forall i, j :: 0 <= i < |calls| && 0 <= j < |calls| && calls[i].admitted && calls[j].admitted && calls[i].started < calls[j].started ==>
      calls[i].started + length <= calls[j].started
  }

  lemma {:induction false} NoneOutside(calls: seq<Call>, x: int)
    requires forall i :: 0 <= i < |calls| && calls[i].admitted ==> calls[i].started != x
    ensures AdmittedIn(calls, x) == 0
  {
    if calls != [] { NoneOutside(calls[..|calls| - 1], x); }
  }

  lemma AdmittedGrows(calls: seq<Call>, c: Call, x: int)
    ensures AdmittedIn(calls + [c], x) == AdmittedIn(calls, x) + if c.admitted && c.started == x then 1 else 0
  {
    assert (calls + [c])[..|calls|] == calls;
  }

  lemma {:induction false} RunKeeps(first: Option<Window>, requests: seq<Request>, cap: int, length: int)
    requires Runs(first, requests) && LimitsWithin(requests, cap) && length > 0
    ensures Kept(first, Run(first, requests, length), cap, length)
  {
    if requests != [] {
      RunKeeps(first, requests[..|requests| - 1], cap, length);
      CallKeeps(first, requests, cap, length);
    }
  }

  // Calls are logged at their times, in order.
  lemma {:induction false} TimesLogged(first: Option<Window>, requests: seq<Request>, length: int, i: nat)
    requires i < |requests|
    ensures Run(first, requests, length).calls[i].time == requests[i].time
  {
    var last := |requests| - 1;
    if i < last {
      TimesLogged(first, requests[..last], length, i);
      assert Run(first, requests, length).calls[i] == Run(first, requests[..last], length).calls[i];
    }
  }

  lemma CallKeeps(first: Option<Window>, requests: seq<Request>, cap: int, length: int)
    requires requests != [] && Runs(first, requests) && LimitsWithin(requests, cap) && length > 0
    requires Kept(first, Run(first, requests[..|requests| - 1], length), cap, length)
    ensures Kept(first, Run(first, requests, length), cap, length)
  {
    hide AdmittedIn, Opened, Apart, Kept;
    var last := |requests| - 1;
    var before, now := Run(first, requests[..last], length), requests[last].time;
    var (w, admitted) := Consume(before.window, requests[last].limit, length, now);
    if before.window.Some? {
      WindowNotAhead(first, requests[..last], length);
      assert before.window.value.started <= now;
    }
    if !admitted {
      RefusedKeeps(first, before, cap, length, now);
    } else if before.window.None? || now - before.window.value.started >= length {
      OpeningKeeps(first, before, cap, length, now);
    } else {
      AdmittingKeeps(first, before, cap, length, now);
    }
  }

  // The current window opened at one of the calls, or is the first one.
  lemma {:induction false} WindowNotAhead(first: Option<Window>, requests: seq<Request>, length: int)
    requires requests != [] || first.Some?
    ensures var started := Run(first, requests, length).window.value.started;
      (exists i :: 0 <= i < |requests| && requests[i].time == started) || (first.Some? && started == first.value.started)
  {
    var last := |requests| - 1;
    if last > 0 || (last == 0 && first.Some?) {
      WindowNotAhead(first, requests[..last], length);
    }
    if last >= 0 { assert requests[last].time == requests[last].time; }
  }

  lemma OpenedStays(first: Option<Window>, calls: seq<Call>, c: Call, x: int)
    requires OpenedBy(first, calls, x)
    ensures OpenedBy(first, calls + [c], x)
  {
    if Opened(calls, x) {
      var i :| 0 <= i < |calls| && calls[i].admitted && calls[i].time == x && calls[i].started == x;
      assert (calls + [c])[i] == calls[i];
    }
  }

  lemma RefusedKeeps(first: Option<Window>, before: History, cap: int, length: int, now: int)
    requires Kept(first, before, cap, length) && before.window.Some?
    ensures Kept(first, History(before.window, before.calls + [Call(now, false, before.window.value.started)]), cap, length)
  {
    hide AdmittedIn, OpenedBy;
    var c := Call(now, false, before.window.value.started);
    OpenedStays(first, before.calls, c, before.window.value.started);
    forall x ensures AdmittedIn(before.calls + [c], x) == AdmittedIn(before.calls, x) { AdmittedGrows(before.calls, c, x); }
    forall i | 0 <= i < |before.calls| && before.calls[i].admitted ensures OpenedBy(first, before.calls + [c], before.calls[i].started) {
      OpenedStays(first, before.calls, c, before.calls[i].started);
    }
  }

  lemma OpeningKeeps(first: Option<Window>, before: History, cap: int, length: int, now: int)
    requires Kept(first, before, cap, length) && length > 0 && (before.window.Some? ==> now - before.window.value.started >= length)
    ensures Kept(first, History(Some(Window(now, 1)), before.calls + [Call(now, true, now)]), cap, length)
  {
    hide AdmittedIn, OpenedBy;
    var c := Call(now, true, now);
    var calls := before.calls + [c];
    NoneOutside(before.calls, now);
    forall x ensures AdmittedIn(calls, x) == AdmittedIn(before.calls, x) + if x == now then 1 else 0 { AdmittedGrows(before.calls, c, x); }
    OpensItself(first, before.calls, now);
    forall i | 0 <= i < |before.calls| && before.calls[i].admitted ensures OpenedBy(first, calls, before.calls[i].started) {
      OpenedStays(first, before.calls, c, before.calls[i].started);
    }
  }

  lemma OpensItself(first: Option<Window>, calls: seq<Call>, now: int)
    ensures OpenedBy(first, calls + [Call(now, true, now)], now)
  {
    assert (calls + [Call(now, true, now)])[|calls|] == Call(now, true, now);
  }

  // A call in the latest window keeps windows apart.
  lemma ApartGrows(first: Option<Window>, calls: seq<Call>, c: Call, length: int)
    requires Apart(calls, length) && OpenedBy(first, calls, c.started)
    requires forall i :: 0 <= i < |calls| && calls[i].admitted ==> calls[i].started <= c.started
    requires first.Some? ==> forall i :: 0 <= i < |calls| && calls[i].admitted ==> first.value.started <= calls[i].started
    ensures Apart(calls + [c], length)
  {
    if !(first.Some? && c.started == first.value.started) {
      var k :| 0 <= k < |calls| && calls[k].admitted && calls[k].time == c.started && calls[k].started == c.started;
    }
  }

  lemma AdmittingKeeps(first: Option<Window>, before: History, cap: int, length: int, now: int)
    requires Kept(first, before, cap, length) && before.window.Some?
    requires before.window.value.started <= now < before.window.value.started + length && before.window.value.count < cap
    ensures var x := before.window.value.started;
      Kept(first, History(Some(Window(x, before.window.value.count + 1)), before.calls + [Call(now, true, x)]), cap, length)
  {
    hide AdmittedIn, OpenedBy, Apart;
    var started := before.window.value.started;
    var c := Call(now, true, started);
    var calls := before.calls + [c];
    ApartGrows(first, before.calls, c, length);
    forall x ensures AdmittedIn(calls, x) == AdmittedIn(before.calls, x) + if x == started then 1 else 0 { AdmittedGrows(before.calls, c, x); }
    OpenedStays(first, before.calls, c, started);
    forall i | 0 <= i < |calls| && calls[i].admitted ensures OpenedBy(first, calls, calls[i].started) {
      OpenedStays(first, before.calls, c, calls[i].started);
    }
  }

  // ----- What an interval admits -----

  // A call that counts towards one part of an interval.
  predicate InPart(c: Call, from: int, to: int, early: bool) {
    Between(c, from, to) && (c.started < from) == early
  }

  // Calls that count towards a part all belong to one window, so there are no more than that window admits;
  // one fewer when some call of the window does not count.
  lemma {:induction false} PartOfWindow(calls: seq<Call>, from: int, to: int, early: bool, x: int, spare: int)
    requires forall i :: 0 <= i < |calls| && InPart(calls[i], from, to, early) ==> calls[i].started == x
    requires -1 <= spare < |calls| && (spare >= 0 ==> calls[spare].admitted && calls[spare].started == x && !InPart(calls[spare], from, to, early))
    ensures AdmittedPart(calls, from, to, early) + (if spare >= 0 then 1 else 0) <= AdmittedIn(calls, x)
  {
    if calls != [] {
      var last := |calls| - 1;
      PartOfWindow(calls[..last], from, to, early, x, if spare == last then -1 else spare);
    }
  }

  lemma {:induction false} EmptyPart(calls: seq<Call>, from: int, to: int, early: bool)
    requires forall i :: 0 <= i < |calls| ==> !InPart(calls[i], from, to, early)
    ensures AdmittedPart(calls, from, to, early) == 0
  {
    if calls != [] { EmptyPart(calls[..|calls| - 1], from, to, early); }
  }

  // Windows opened in the interval: there is only one.
  lemma LatePart(first: Option<Window>, h: History, cap: int, length: int, from: int)
    requires Kept(first, h, cap, length)
    ensures AdmittedPart(h.calls, from, from + length, false) <= Most(cap)
  {
    hide AdmittedIn, AdmittedPart, OpenedBy;
    if i :| 0 <= i < |h.calls| && InPart(h.calls[i], from, from + length, false) {
      forall j | 0 <= j < |h.calls| && InPart(h.calls[j], from, from + length, false) ensures h.calls[j].started == h.calls[i].started {
      }
      PartOfWindow(h.calls, from, from + length, false, h.calls[i].started, -1);
    } else {
      EmptyPart(h.calls, from, from + length, false);
    }
  }

  // Windows open before the interval: there is only one, and a call that opened it does not count.
  lemma EarlyPart(first: Option<Window>, h: History, cap: int, length: int, from: int)
    requires Kept(first, h, cap, length)
    ensures AdmittedPart(h.calls, from, from + length, true) <= if first.None? then Most(cap) - 1 else Most(cap)
  {
    hide AdmittedIn, AdmittedPart;
    if i :| 0 <= i < |h.calls| && InPart(h.calls[i], from, from + length, true) {
      var x := h.calls[i].started;
      forall j | 0 <= j < |h.calls| && InPart(h.calls[j], from, from + length, true) ensures h.calls[j].started == x {
      }
      assert OpenedBy(first, h.calls, x);
      if Opened(h.calls, x) {
        var k :| 0 <= k < |h.calls| && h.calls[k].admitted && h.calls[k].time == x && h.calls[k].started == x;
        PartOfWindow(h.calls, from, from + length, true, x, k);
      } else {
        PartOfWindow(h.calls, from, from + length, true, x, -1);
      }
    } else {
      EmptyPart(h.calls, from, from + length, true);
    }
  }

  // On a clock that does not go back, when no caller lets a window admit more than cap, each window admits at most cap,
  // and every half-open interval one window long at most twice cap; one less when each window was opened by a call.
  lemma IntervalsAreBounded(first: Option<Window>, requests: seq<Request>, cap: int, length: int, from: int, started: int)
    requires Runs(first, requests) && LimitsWithin(requests, cap) && length > 0
    ensures AdmittedIn(Run(first, requests, length).calls, started) <= Most(cap)
    ensures AdmittedBetween(Run(first, requests, length).calls, from, from + length) <= 2 * Most(cap) - if first.None? then 1 else 0
  {
    hide AdmittedIn, AdmittedBetween, AdmittedPart, Run, Apart, OpenedBy;
    var h := Run(first, requests, length);
    RunKeeps(first, requests, cap, length);
    PartsAddUp(h.calls, from, from + length);
    LatePart(first, h, cap, length, from);
    EarlyPart(first, h, cap, length, from);
  }

  // ----- The bounds are reached -----

  // The same call n times.
  function Many(r: Request, n: nat): (m: seq<Request>)
    ensures |m| == n && forall i :: 0 <= i < n ==> m[i] == r
  {
    seq(n, i => r)
  }

  function Same(c: Call, n: nat): (m: seq<Call>)
    ensures |m| == n && forall i :: 0 <= i < n ==> m[i] == c
  {
    seq(n, i => c)
  }

  // Calls that the current window has room for are all admitted in it.
  lemma {:induction false} AdmitMany(first: Option<Window>, before: seq<Request>, r: Request, n: nat, length: int)
    requires var h := Run(first, before, length);
      h.window.Some? && r.time - h.window.value.started < length && h.window.value.count + n <= r.limit
    ensures var h := Run(first, before, length); var w := h.window.value;
      Run(first, before + Many(r, n), length) == History(Some(Window(w.started, w.count + n)), h.calls + Same(Call(r.time, true, w.started), n))
  {
    hide Run;
    var h := Run(first, before, length);
    var c := Call(r.time, true, h.window.value.started);
    if n == 0 {
      assert before + Many(r, 0) == before && h.calls + Same(c, 0) == h.calls;
    } else {
      AdmitMany(first, before, r, n - 1, length);
      assert before + Many(r, n) == (before + Many(r, n - 1)) + [r];
      assert h.calls + Same(c, n) == (h.calls + Same(c, n - 1)) + [c];
      RunGrows(first, before + Many(r, n - 1), r, length);
    }
  }

  lemma {:induction false} BetweenMany(calls: seq<Call>, c: Call, n: nat, from: int, to: int)
    ensures AdmittedBetween(calls + Same(c, n), from, to) == AdmittedBetween(calls, from, to) + if Between(c, from, to) then n else 0
  {
    if n == 0 {
      assert calls + Same(c, 0) == calls;
    } else {
      BetweenMany(calls, c, n - 1, from, to);
      assert (calls + Same(c, n))[..|calls| + n - 1] == calls + Same(c, n - 1);
    }
  }

  lemma BetweenOne(calls: seq<Call>, c: Call, from: int, to: int)
    ensures AdmittedBetween(calls + [c], from, to) == AdmittedBetween(calls, from, to) + if Between(c, from, to) then 1 else 0
  {
    assert (calls + [c])[..|calls|] == calls;
  }

  // From a window that opened at 0: the rest of its calls at its last moment, and a full window right after it.
  lemma TwoWindows(first: Option<Window>, before: seq<Request>, n: nat, limit: int, length: int)
    requires limit >= 1 && length >= 2 && Run(first, before, length).window == Some(Window(0, limit - n)) && n <= limit
    requires AdmittedBetween(Run(first, before, length).calls, length - 1, 2 * length - 1) == 0
    ensures var late, next := Request(length - 1, limit), Request(length, limit);
      AdmittedBetween(Run(first, before + Many(late, n) + [next] + Many(next, limit - 1), length).calls, length - 1, 2 * length - 1) == n + limit
  {
    hide Run, AdmittedBetween;
    var late, next := Request(length - 1, limit), Request(length, limit);
    var from, to := length - 1, 2 * length - 1;
    AdmitMany(first, before, late, n, length);
    var h := Run(first, before + Many(late, n), length);
    BetweenMany(Run(first, before, length).calls, Call(length - 1, true, 0), n, from, to);
    RunGrows(first, before + Many(late, n), next, length);
    BetweenOne(h.calls, Call(length, true, length), from, to);
    var k := Run(first, before + Many(late, n) + [next], length);
    AdmitMany(first, before + Many(late, n) + [next], next, limit - 1, length);
    BetweenMany(k.calls, Call(length, true, length), limit - 1, from, to);
  }

  // For every limit and length both bounds are reached: by a limiter whose windows open with a call, and by one that
  // starts with a window.
  lemma BoundIsReached(limit: int, length: int)
    requires limit >= 1 && length >= 2
    ensures var late, next := Request(length - 1, limit), Request(length, limit);
      var requests := [Request(0, limit)] + Many(late, limit - 1) + [next] + Many(next, limit - 1);
      Runs(None, requests) && AdmittedBetween(Run(None, requests, length).calls, length - 1, 2 * length - 1) == 2 * limit - 1
    ensures var late, next := Request(length - 1, limit), Request(length, limit);
      var requests := [] + Many(late, limit) + [next] + Many(next, limit - 1); var first := Some(Window(0, 0));
      Runs(first, requests) && AdmittedBetween(Run(first, requests, length).calls, length - 1, 2 * length - 1) == 2 * limit
  {
    hide Run, AdmittedBetween;
    OpensAtZero(limit, length);
    TwoWindows(None, [Request(0, limit)], limit - 1, limit, length);
    TwoWindows(Some(Window(0, 0)), [], limit, limit, length);
  }

  lemma OpensAtZero(limit: int, length: int)
    requires length >= 2
    ensures Run(None, [Request(0, limit)], length) == History(Some(Window(0, 1)), [Call(0, true, 0)])
    ensures Run(Some(Window(0, 0)), [], length) == History(Some(Window(0, 0)), [])
    ensures AdmittedBetween([Call(0, true, 0)], length - 1, 2 * length - 1) == 0 && AdmittedBetween([], length - 1, 2 * length - 1) == 0
  {
    assert [Request(0, limit)][..0] == [] && [Call(0, true, 0)][..0] == [];
  }

  // ----- Which limits are kept -----

  // No window of any run in which every call brings this limit admits more than it.
  ghost predicate KeepsLimit(limit: int, length: int) {
    forall requests: seq<Request>, started: int :: Runs(None, requests) && (forall i :: 0 <= i < |requests| ==> requests[i].limit == limit) ==>
      AdmittedIn(Run(None, requests, length).calls, started) <= limit
  }

  // The opening call is admitted before the limit is looked at, so a limit is kept exactly when it is at least one.
  lemma LimitIsKeptExactlyWhenPositive(limit: int, length: int)
    requires length > 0
    ensures KeepsLimit(limit, length) <==> limit >= 1
  {
    hide Run, AdmittedIn;
    if limit >= 1 {
      forall requests: seq<Request>, started: int | Runs(None, requests) && forall i :: 0 <= i < |requests| ==> requests[i].limit == limit
        ensures AdmittedIn(Run(None, requests, length).calls, started) <= limit
      {
        IntervalsAreBounded(None, requests, limit, length, 0, started);
      }
    } else {
      OpeningAdmits(limit, length);
      assert Runs(None, [Request(0, limit)]);
    }
  }

  lemma OpeningAdmits(limit: int, length: int)
    ensures AdmittedIn(Run(None, [Request(0, limit)], length).calls, 0) == 1
  {
    assert [Request(0, limit)][..0] == [];
    var c := Call(0, true, 0);
    assert Run(None, [Request(0, limit)], length).calls == [c];
    assert [c][..0] == [];
  }

  // ----- The limiter -----

  // The calls with one key.
  function RequestsOf(log: seq<(Id, Request)>, key: Id): seq<Request> {
    if log == [] then []
    else
      var last := log[|log| - 1];
      RequestsOf(log[..|log| - 1], key) + if last.0 == key then [last.1] else []
  }

  lemma RequestsGrow(log: seq<(Id, Request)>, key: Id, r: Request, other: Id)
    ensures RequestsOf(log + [(key, r)], other) == if key == other then RequestsOf(log, other) + [r] else RequestsOf(log, other)
  {
    assert (log + [(key, r)])[..|log|] == log;
  }

  lemma {:induction false} RequestsAreLogged(log: seq<(Id, Request)>, key: Id, r: Request)
    requires r in RequestsOf(log, key)
    ensures (key, r) in log
  {
    if log != [] && r in RequestsOf(log[..|log| - 1], key) { RequestsAreLogged(log[..|log| - 1], key, r); }
  }

  function Lookup(windows: map<Id, Window>, key: Id): Option<Window> {
    if key in windows then Some(windows[key]) else None
  }

  // A call spelled out: open anew, refuse, or count.
  lemma WindowStep(w: Option<Window>, limit: int, length: int, now: int)
    ensures w.None? || now - w.value.started >= length ==> Consume(w, limit, length, now) == (Some(Window(now, 1)), true)
    ensures w.Some? && now - w.value.started < length && w.value.count >= limit ==> Consume(w, limit, length, now) == (w, false)
    ensures w.Some? && now - w.value.started < length && w.value.count < limit ==>
      Consume(w, limit, length, now) == (Some(Window(w.value.started, w.value.count + 1)), true)
  {
  }

  lemma RunGrows(first: Option<Window>, requests: seq<Request>, r: Request, length: int)
    ensures var before := Run(first, requests, length); var (w, admitted) := Consume(before.window, r.limit, length, r.time);
      w.Some? && Run(first, requests + [r], length) == History(w, before.calls + [Call(r.time, admitted, w.value.started)])
  {
    assert (requests + [r])[..|requests|] == requests;
  }

  // Whether the run admitted its last call.
  predicate LastAdmitted(h: History) {
    h.calls != [] && h.calls[|h.calls| - 1].admitted
  }

  class FixedWindowRateLimiter {
    const limit: int
    const windowMs: int
    var windows: map<Id, Window>
    ghost var log: seq<(Id, Request)>

    // The window of each key is the one that its own calls lead to.
    ghost predicate Valid()
      reads this
    {
      && (forall key :: Lookup(windows, key) == Run(None, RequestsOf(log, key), windowMs).window)
      && forall i :: 0 <= i < |log| ==> log[i].1.limit == limit
    }

    constructor (limit: int, windowMs: int)
      ensures this.limit == limit && this.windowMs == windowMs && log == [] && Valid()
    {
      this.limit, this.windowMs := limit, windowMs;
      windows, log := map[], [];
    }

    // Admits a call exactly when the run of the key's calls does, and leaves the other keys alone.
    method ConsumeCall(key: Id, now: int) returns (admitted: bool)
      requires Valid()
      modifies this
      ensures Valid() && log == old(log) + [(key, Request(now, limit))]
      ensures admitted == LastAdmitted(Run(None, RequestsOf(log, key), windowMs))
      ensures forall other :: other != key ==> Lookup(windows, other) == Lookup(old(windows), other)
    {
      hide Run, RequestsOf, Consume;
      ghost var r := Request(now, limit);
      ghost var before := RequestsOf(log, key);
      WindowStep(Lookup(windows, key), limit, windowMs, now);
      forall other ensures RequestsOf(log + [(key, r)], other) == if key == other then RequestsOf(log, other) + [r] else RequestsOf(log, other) {
        RequestsGrow(log, key, r, other);
      }
      log := log + [(key, r)];
      RunGrows(None, before, r, windowMs);
      if key !in windows || now - windows[key].started >= windowMs {
        windows := windows[key := Window(now, 1)];
        return true;
      }
      if windows[key].count >= limit { return false; }
      windows := windows[key := Window(windows[key].started, windows[key].count + 1)];
      return true;
    }

    // So, on a clock that does not go back, what the limiter has let through is bounded.
    lemma AdmitsAtMost(key: Id, from: int, started: int)
      requires Valid() && windowMs > 0 && Runs(None, RequestsOf(log, key))
      ensures var calls := Run(None, RequestsOf(log, key), windowMs).calls;
        AdmittedIn(calls, started) <= Most(limit) && AdmittedBetween(calls, from, from + windowMs) <= 2 * Most(limit) - 1
    {
      hide Run, RequestsOf, AdmittedIn, AdmittedBetween;
      var requests := RequestsOf(log, key);
      forall i | 0 <= i < |requests| ensures requests[i].limit <= limit { RequestsAreLogged(log, key, requests[i]); }
      IntervalsAreBounded(None, requests, limit, windowMs, from, started);
    }
  }

  // ----- The shared limiter -----

  const MINUTE := 60_000
  const MAX_LIMIT := 1_000_000

  datatype KeyRow = KeyRow(window: Window, revoked: bool, control: Id)
  datatype Refusal = InvalidInput | KeyUnavailable | Integrity | Exceeded

  // One row per API key, under a control hash; a key starts with a window that has counted nothing.
  class SharedRateLimiter {
    const control: (Id, Window, bool) -> Id
    var rows: map<Id, KeyRow>
    ghost var openings: map<Id, Window>
    ghost var log: seq<(Id, Request)>

    predicate Intact(key: Id)
      reads this
    {
      key in rows && rows[key].control == control(key, rows[key].window, rows[key].revoked)
    }

    // Each row carries its control hash, and the window that the calls of its key lead to.
    ghost predicate Valid()
      reads this
    {
      && rows.Keys == openings.Keys
      && (forall key :: key in rows ==> Intact(key) && openings[key].count == 0)
      && (forall key :: key in rows ==> Run(Some(openings[key]), RequestsOf(log, key), MINUTE).window == Some(rows[key].window))
      && (forall key :: key !in rows ==> RequestsOf(log, key) == [])
      && forall i :: 0 <= i < |log| ==> 1 <= log[i].1.limit <= MAX_LIMIT
    }

    constructor (control: (Id, Window, bool) -> Id)
      ensures this.control == control && rows == map[] && log == [] && Valid()
    {
      this.control := control;
      rows, openings, log := map[], map[], [];
    }

    method IssueApiKey(key: Id, now: int)
      requires Valid() && key !in rows
      modifies this
      ensures Valid() && openings == old(openings)[key := Window(now, 0)] && log == old(log)
      ensures rows == old(rows)[key := KeyRow(Window(now, 0), false, control(key, Window(now, 0), false))]
    {
      var window := Window(now, 0);
      rows := rows[key := KeyRow(window, false, control(key, window, false))];
      openings := openings[key := window];
    }

    // A key that is not its own caller's is revoked once, and for good.
    method RevokeApiKey(caller: Id, key: Id) returns (r: Result<bool, Refusal>)
      modifies this`rows
      ensures old(Valid()) ==> Valid()
      ensures r == if key == caller then Err(InvalidInput) else if key !in old(rows) || old(rows)[key].revoked then Ok(false)
                   else if !old(Intact(key)) then Err(Integrity) else Ok(true)
      ensures r != Ok(true) ==> rows == old(rows)
      ensures r == Ok(true) ==> rows == old(rows)[key := KeyRow(old(rows)[key].window, true, control(key, old(rows)[key].window, true))]
    {
      hide Run, RequestsOf;
      if key == caller { return Err(InvalidInput); }
      if key !in rows || rows[key].revoked { return Ok(false); }
      if !Intact(key) { return Err(Integrity); }
      var window := rows[key].window;
      rows := rows[key := KeyRow(window, true, control(key, window, true))];
      return Ok(true);
    }

    // Why a call is refused before its window is looked at.
    function Unusable(key: Id, limit: int): (r: Option<Refusal>)
      reads this
      ensures r.None? <==> 1 <= limit <= MAX_LIMIT && Intact(key) && !rows[key].revoked
    {
      if limit < 1 || limit > MAX_LIMIT then Some(InvalidInput)
      else if key !in rows || rows[key].revoked then Some(KeyUnavailable)
      else if !Intact(key) then Some(Integrity)
      else None
    }

    // A call on a usable key is admitted exactly when the run of the key's calls admits it, each under its own limit.
    method ConsumeRateLimit(key: Id, limit: int, now: int) returns (r: Option<Refusal>)
      modifies this
      ensures openings == old(openings) && (old(Valid()) ==> Valid())
      ensures old(Unusable(key, limit)).Some? ==> r == old(Unusable(key, limit)) && rows == old(rows) && log == old(log)
      ensures old(Unusable(key, limit)).None? ==> log == old(log) + [(key, Request(now, limit))]
      ensures old(Valid()) && old(Unusable(key, limit)).None? ==>
        r == if LastAdmitted(Run(Some(openings[key]), RequestsOf(log, key), MINUTE)) then None else Some(Exceeded)
      ensures forall other :: other in old(rows) && other != key ==> other in rows && rows[other] == old(rows)[other]
    {
      hide Run, RequestsOf, Consume;
      if limit < 1 || limit > MAX_LIMIT { return Some(InvalidInput); }
      if key !in rows || rows[key].revoked { return Some(KeyUnavailable); }
      if !Intact(key) { return Some(Integrity); }
      var row := rows[key].window;
      ghost var request := Request(now, limit);
      ghost var before := RequestsOf(log, key);
      WindowStep(Some(row), limit, MINUTE, now);
      forall other
        ensures RequestsOf(log + [(key, request)], other) == if key == other then RequestsOf(log, other) + [request] else RequestsOf(log, other)
      {
        RequestsGrow(log, key, request, other);
      }
      log := log + [(key, request)];
      if key in openings { RunGrows(Some(openings[key]), before, request, MINUTE); }
      var reset := now - row.started >= MINUTE;
      if !reset && row.count >= limit { return Some(Exceeded); }
      var updated := Window(if reset then now else row.started, if reset then 1 else row.count + 1);
      rows := rows[key := KeyRow(updated, false, control(key, updated, false))];
      return None;
    }

    // So, on a clock that does not go back, a key whose callers bring limits of at most cap is let through at most cap
    // times in each window and at most twice as often in any minute.
    lemma AdmitsAtMost(key: Id, cap: int, from: int, started: int)
      requires Valid() && key in openings && Runs(Some(openings[key]), RequestsOf(log, key)) && LimitsWithin(RequestsOf(log, key), cap) && cap >= 1
      ensures var calls := Run(Some(openings[key]), RequestsOf(log, key), MINUTE).calls;
        AdmittedIn(calls, started) <= cap && AdmittedBetween(calls, from, from + MINUTE) <= 2 * cap
    {
      hide Run, RequestsOf, AdmittedIn, AdmittedBetween;
      IntervalsAreBounded(Some(openings[key]), RequestsOf(log, key), cap, MINUTE, from, started);
    }
  }
}
