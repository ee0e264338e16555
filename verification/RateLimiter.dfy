// The fixed-window request limiter of the public read API.
module RateLimiter {
  import opened Lists

  type Client = string

  datatype Limits = Limits(windowMs: nat, max: nat, maxClients: nat)

  datatype Window = Window(start: int, count: nat)

  type Windows = map<Client, Window>

  datatype Verdict = Shed | Limited(retryAfter: int) | Passed(remaining: nat)

  datatype Reply = Reply(windows: Windows, verdict: Verdict)

  predicate Expired(cfg: Limits, w: Window, now: int) {
    now - w.start >= cfg.windowMs
  }

  function Live(cfg: Limits, ws: Windows, now: int): Windows {
    map c | c in ws && !Expired(cfg, ws[c], now) :: ws[c]
  }

  // Milliseconds to whole seconds, rounded up.
  function CeilSeconds(ms: int): int {
    (ms + 999) / 1000
  }

  function Count(cfg: Limits, ws: Windows, c: Client, now: int): Reply
    requires c in ws
  {
    var w := ws[c].(count := ws[c].count + 1);
    Reply(ws[c := w],
          if w.count > cfg.max then Limited(CeilSeconds(w.start + cfg.windowMs - now)) else Passed(cfg.max - w.count))
  }

  function Handle(cfg: Limits, ws: Windows, c: Client, now: int): Reply {
    if c in ws && !Expired(cfg, ws[c], now) then Count(cfg, ws, c, now)
    else
      var room := if |ws| >= cfg.maxClients then Live(cfg, ws, now) else ws;
      if |room| >= cfg.maxClients then Reply(room, Shed) else Count(cfg, room[c := Window(now, 0)], c, now)
  }

  class Limiter {
    const cfg: Limits
    var windows: Windows

    constructor (cfg: Limits)
      ensures this.cfg == cfg && windows == map[]
    {
      this.cfg := cfg;
      windows := map[];
    }

    method Purge(now: int)
      modifies this
      ensures windows == Live(cfg, old(windows), now)
    {
      var pending := windows.Keys;
      while pending != {}
        invariant pending <= windows.Keys <= old(windows).Keys
        invariant forall c <- windows :: windows[c] == old(windows)[c]
        invariant forall c <- old(windows) :: c !in pending ==> (c in windows <==> !Expired(cfg, old(windows)[c], now))
        decreases pending
      {
        var c :| c in pending;
        pending := pending - {c};
        if Expired(cfg, windows[c], now) {
          windows := windows - {c};
        }
      }
    }

    method Request(c: Client, now: int) returns (verdict: Verdict)
      modifies this
      ensures Reply(windows, verdict) == Handle(cfg, old(windows), c, now)
    {
      if c !in windows || now - windows[c].start >= cfg.windowMs {
        if |windows| >= cfg.maxClients {
          Purge(now);
          if |windows| >= cfg.maxClients {
            return Shed;
          }
        }
        windows := windows[c := Window(now, 0)];
      }
      var entry := windows[c].(count := windows[c].count + 1);
      windows := windows[c := entry];
      var remaining := if cfg.max > entry.count then cfg.max - entry.count else 0;
      if entry.count > cfg.max {
        return Limited(CeilSeconds(entry.start + cfg.windowMs - now));
      }
      return Passed(remaining);
    }
  }

  // A refused client that waits the announced seconds meets an expired window; one second less may be too few.
  lemma RetryAfterIsTight(cfg: Limits, ws: Windows, c: Client, now: int)
    requires cfg.windowMs > 0 && Handle(cfg, ws, c, now).verdict.Limited?
    ensures var r := Handle(cfg, ws, c, now);
      && c in r.windows
      && (forall s: int :: s >= r.verdict.retryAfter <==> Expired(cfg, r.windows[c], now + 1000 * s))
      && r.verdict.retryAfter > 0
  {
  }

  predicate HasWindow(cfg: Limits, ws: Windows, c: Client, now: int) {
    c in ws && now < ws[c].start + cfg.windowMs
  }

  // Who is shed, who is limited and who passes: a client without a window is shed exactly when the windows that
  // are not over already fill the table; any other request is limited exactly when the limit is used up.
  lemma Verdicts(cfg: Limits, ws: Windows, c: Client, now: int)
    ensures var verdict, used := Handle(cfg, ws, c, now).verdict,
                                 if HasWindow(cfg, ws, c, now) then ws[c].count else 0;
      var full := |ws| >= cfg.maxClients && |set k | k in ws && HasWindow(cfg, ws, k, now)| >= cfg.maxClients;
      && (verdict.Shed? <==> !HasWindow(cfg, ws, c, now) && full)
      && (verdict.Limited? <==> !verdict.Shed? && used >= cfg.max)
      && (verdict.Passed? ==> verdict.remaining == cfg.max - used - 1)
  {
    assert Live(cfg, ws, now).Keys == set k | k in ws && HasWindow(cfg, ws, k, now);
    assert |Live(cfg, ws, now)| == |Live(cfg, ws, now).Keys|;
  }

  // What a request leaves behind: its client's window, opened now or counted up, and of the others all, unless
  // room had to be made, and then exactly those that are not over.
  lemma WindowsAfter(cfg: Limits, ws: Windows, c: Client, now: int, other: Client)
    ensures var r := Handle(cfg, ws, c, now);
      var made := !HasWindow(cfg, ws, c, now) && |ws| >= cfg.maxClients;
      && (!r.verdict.Shed? ==>
            c in r.windows
            && r.windows[c] == if HasWindow(cfg, ws, c, now) then Window(ws[c].start, ws[c].count + 1)
                               else Window(now, 1))
      && (other != c ==> (other in r.windows <==> other in ws && (!made || HasWindow(cfg, ws, other, now))))
      && (other != c && other in r.windows ==> r.windows[other] == ws[other])
  {
  }

  // ---- Over runs of requests ----

  datatype Arrival = Arrival(client: Client, now: int)

  ghost predicate ClockRises(reqs: seq<Arrival>) {
    forall i, j :: 0 <= i < j < |reqs| ==> reqs[i].now <= reqs[j].now
  }

  function After(cfg: Limits, reqs: seq<Arrival>): Windows {
    if reqs == [] then map[]
    else
      var n := |reqs| - 1;
      Handle(cfg, After(cfg, reqs[..n]), reqs[n].client, reqs[n].now).windows
  }

  predicate PassesLast(cfg: Limits, reqs: seq<Arrival>)
    requires reqs != []
  {
    var n := |reqs| - 1;
    Handle(cfg, After(cfg, reqs[..n]), reqs[n].client, reqs[n].now).verdict.Passed?
  }

  // How many of a client's requests passed at time t or later.
  function PassedSince(cfg: Limits, reqs: seq<Arrival>, c: Client, t: int): nat {
    if reqs == [] then 0
    else
      var n := |reqs| - 1;
      PassedSince(cfg, reqs[..n], c, t)
      + if reqs[n].client == c && reqs[n].now >= t && PassesLast(cfg, reqs) then 1 else 0
  }

  // How many of a client's requests passed at lo or later and before hi.
  function PassedBetween(cfg: Limits, reqs: seq<Arrival>, c: Client, lo: int, hi: int): nat {
    if reqs == [] then 0
    else
      var n := |reqs| - 1;
      PassedBetween(cfg, reqs[..n], c, lo, hi)
      + if reqs[n].client == c && lo <= reqs[n].now < hi && PassesLast(cfg, reqs) then 1 else 0
  }

  lemma {:induction false} BetweenIsDifference(cfg: Limits, reqs: seq<Arrival>, c: Client, lo: int, hi: int)
    requires lo <= hi
    ensures PassedBetween(cfg, reqs, c, lo, hi) == PassedSince(cfg, reqs, c, lo) - PassedSince(cfg, reqs, c, hi)
  {
    if reqs != [] {
      BetweenIsDifference(cfg, reqs[..|reqs| - 1], c, lo, hi);
    }
  }

  lemma {:induction false} TrackedClients(cfg: Limits, reqs: seq<Arrival>)
    ensures |After(cfg, reqs)| <= cfg.maxClients
  {
    if reqs != [] {
      var n := |reqs| - 1;
      TrackedClients(cfg, reqs[..n]);
      var ws, c, now := After(cfg, reqs[..n]), reqs[n].client, reqs[n].now;
      LiveIsSmaller(cfg, ws, now);
      var room := if |ws| >= cfg.maxClients then Live(cfg, ws, now) else ws;
      if c in ws && !Expired(cfg, ws[c], now) {
        assert Count(cfg, ws, c, now).windows.Keys == ws.Keys;
      } else if |room| < cfg.maxClients {
        var grown := room[c := Window(now, 0)];
        assert Count(cfg, grown, c, now).windows.Keys == grown.Keys == room.Keys + {c};
      }
    }
  }

  lemma LiveIsSmaller(cfg: Limits, ws: Windows, now: int)
    ensures |Live(cfg, ws, now)| <= |ws|
  {
    assert Live(cfg, ws, now).Keys <= ws.Keys;
    SubsetSize(Live(cfg, ws, now).Keys, ws.Keys);
  }

  // The time up to which the run has come, seen from a state that may still be empty.
  predicate Reached(reqs: seq<Arrival>, now: int) {
    forall i :: 0 <= i < |reqs| ==> reqs[i].now <= now
  }

  function CutOff(cfg: Limits, count: nat): nat {
    if count <= cfg.max then count else cfg.max
  }

  // What can still come out of a window after its first request.
  function Remainder(cfg: Limits): nat {
    if cfg.max == 0 then 0 else cfg.max - 1
  }

  // What the windows know about one client's past.
  ghost predicate Accounts(cfg: Limits, reqs: seq<Arrival>, c: Client, now: int) {
    var ws := After(cfg, reqs);
    if c in ws then
      var w := ws[c];
      && w.start <= now && w.count > 0
      && PassedSince(cfg, reqs, c, w.start) == CutOff(cfg, w.count)
      && PassedSince(cfg, reqs, c, w.start + cfg.windowMs) == 0
      && (forall t :: t > w.start && cfg.max > 0 ==> PassedSince(cfg, reqs, c, t) < PassedSince(cfg, reqs, c, w.start))
      && (forall t :: w.start - cfg.windowMs < t <= w.start ==>
            PassedSince(cfg, reqs, c, t) - PassedSince(cfg, reqs, c, w.start) <= Remainder(cfg))
    else
      && PassedSince(cfg, reqs, c, now) == 0
      && (forall t :: t > now - cfg.windowMs ==> PassedSince(cfg, reqs, c, t) <= Remainder(cfg))
  }

  lemma {:induction false} SinceFalls(cfg: Limits, reqs: seq<Arrival>, c: Client, t: int, u: int)
    requires t <= u
    ensures PassedSince(cfg, reqs, c, t) >= PassedSince(cfg, reqs, c, u)
  {
    if reqs != [] {
      SinceFalls(cfg, reqs[..|reqs| - 1], c, t, u);
    }
  }

  // The account of a client stays true while time passes and others' requests come.
  lemma AccountsAge(cfg: Limits, reqs: seq<Arrival>, c: Client, now: int, later: int)
    requires Accounts(cfg, reqs, c, now) && now <= later
    ensures Accounts(cfg, reqs, c, later)
  {
    if c !in After(cfg, reqs) {
      SinceFalls(cfg, reqs, c, now, later);
    }
  }

  // Nothing of an expired window counts from now on, and at most the remainder within a window's length back.
  lemma ExpiredSince(cfg: Limits, reqs: seq<Arrival>, c: Client, now: int, t: int)
    requires Accounts(cfg, reqs, c, now)
    requires c in After(cfg, reqs) ==> Expired(cfg, After(cfg, reqs)[c], now)
    ensures t >= now ==> PassedSince(cfg, reqs, c, t) == 0
    ensures t > now - cfg.windowMs ==> PassedSince(cfg, reqs, c, t) <= Remainder(cfg)
  {
    if c in After(cfg, reqs) {
      var w := After(cfg, reqs)[c];
      if t > w.start {
        SinceFalls(cfg, reqs, c, w.start, t);
      }
      if t >= now {
        SinceFalls(cfg, reqs, c, w.start + cfg.windowMs, t);
      }
    } else if t >= now {
      SinceFalls(cfg, reqs, c, now, t);
    }
  }

  lemma ExpiredAccount(cfg: Limits, reqs: seq<Arrival>, c: Client, now: int)
    requires Accounts(cfg, reqs, c, now)
    requires c in After(cfg, reqs) ==> Expired(cfg, After(cfg, reqs)[c], now)
    ensures forall t :: t >= now ==> PassedSince(cfg, reqs, c, t) == 0
    ensures forall t :: t > now - cfg.windowMs ==> PassedSince(cfg, reqs, c, t) <= Remainder(cfg)
  {
    forall t
      ensures t >= now ==> PassedSince(cfg, reqs, c, t) == 0
      ensures t > now - cfg.windowMs ==> PassedSince(cfg, reqs, c, t) <= Remainder(cfg)
    {
      ExpiredSince(cfg, reqs, c, now, t);
    }
  }

  lemma OtherClientAccounts(cfg: Limits, reqs: seq<Arrival>, c: Client)
    requires reqs != [] && Accounts(cfg, reqs[..|reqs| - 1], c, reqs[|reqs| - 1].now)
    requires c != reqs[|reqs| - 1].client
    ensures Accounts(cfg, reqs, c, reqs[|reqs| - 1].now)
  {
    var n := |reqs| - 1;
    var now := reqs[n].now;
    var before, after := After(cfg, reqs[..n]), After(cfg, reqs);
    assert forall t :: PassedSince(cfg, reqs, c, t) == PassedSince(cfg, reqs[..n], c, t);
    if c in after {
      assert c in before && after[c] == before[c];
    } else {
      ExpiredAccount(cfg, reqs[..n], c, now);
    }
  }

  lemma SameClientAccounts(cfg: Limits, reqs: seq<Arrival>)
    requires cfg.windowMs > 0
    requires reqs != [] && Accounts(cfg, reqs[..|reqs| - 1], reqs[|reqs| - 1].client, reqs[|reqs| - 1].now)
    ensures Accounts(cfg, reqs, reqs[|reqs| - 1].client, reqs[|reqs| - 1].now)
  {
    var n := |reqs| - 1;
    var c, now := reqs[n].client, reqs[n].now;
    var before, after := After(cfg, reqs[..n]), After(cfg, reqs);
    var one := if PassesLast(cfg, reqs) then 1 else 0;
    assert forall t :: PassedSince(cfg, reqs, c, t) == PassedSince(cfg, reqs[..n], c, t) + if now >= t then one else 0;
    if c in before && !Expired(cfg, before[c], now) {
      assert after[c] == Window(before[c].start, before[c].count + 1);
    } else {
      ExpiredAccount(cfg, reqs[..n], c, now);
      if c in after {
        assert after[c] == Window(now, 1);
      }
    }
  }

  lemma {:induction false} RunAccounts(cfg: Limits, reqs: seq<Arrival>, c: Client, now: int)
    requires cfg.windowMs > 0 && ClockRises(reqs) && Reached(reqs, now)
    ensures Accounts(cfg, reqs, c, now)
  {
    if reqs != [] {
      var n := |reqs| - 1;
      RunAccounts(cfg, reqs[..n], c, reqs[n].now);
      if reqs[n].client == c {
        SameClientAccounts(cfg, reqs);
      } else {
        OtherClientAccounts(cfg, reqs, c);
      }
      AccountsAge(cfg, reqs, c, reqs[n].now, now);
    }
  }

  lemma CurrentCount(cfg: Limits, reqs: seq<Arrival>, c: Client, w: Window)
    requires cfg.windowMs > 0 && ClockRises(reqs)
    requires c in After(cfg, reqs) && After(cfg, reqs)[c] == w
    ensures PassedSince(cfg, reqs, c, w.start) == CutOff(cfg, w.count)
    ensures PassedSince(cfg, reqs, c, w.start + cfg.windowMs) == 0
  {
    if reqs != [] {
      RunAccounts(cfg, reqs, c, reqs[|reqs| - 1].now);
    }
  }

  // In every state of every run, what passed in a client's current window is its count, cut off at the limit.
  lemma WindowPassesAtMostMax(cfg: Limits, reqs: seq<Arrival>, c: Client, w: Window)
    requires cfg.windowMs > 0 && ClockRises(reqs)
    requires c in After(cfg, reqs) && After(cfg, reqs)[c] == w
    ensures PassedBetween(cfg, reqs, c, w.start, w.start + cfg.windowMs) == CutOff(cfg, w.count)
  {
    CurrentCount(cfg, reqs, c, w);
    BetweenIsDifference(cfg, reqs, c, w.start, w.start + cfg.windowMs);
  }

  // The announced remainder is exact: with what already passed in the window it makes the limit.
  lemma RemainingIsExact(cfg: Limits, reqs: seq<Arrival>, w: Window)
    requires cfg.windowMs > 0 && ClockRises(reqs) && reqs != [] && PassesLast(cfg, reqs)
    requires reqs[|reqs| - 1].client in After(cfg, reqs) && After(cfg, reqs)[reqs[|reqs| - 1].client] == w
    ensures var n := |reqs| - 1;
      var reply := Handle(cfg, After(cfg, reqs[..n]), reqs[n].client, reqs[n].now);
      reply.verdict.remaining + PassedBetween(cfg, reqs, reqs[n].client, w.start, w.start + cfg.windowMs) == cfg.max
  {
    WindowPassesAtMostMax(cfg, reqs, reqs[|reqs| - 1].client, w);
  }

  // No interval as long as a window, wherever it starts, sees twice the limit pass.
  lemma {:induction false} UnderTwiceMaxInAnyInterval(cfg: Limits, reqs: seq<Arrival>, c: Client, t: int)
    requires cfg.windowMs > 0 && ClockRises(reqs)
    ensures PassedBetween(cfg, reqs, c, t, t + cfg.windowMs) <= Remainder(cfg) + cfg.max
  {
    if reqs != [] {
      var n := |reqs| - 1;
      UnderTwiceMaxInAnyInterval(cfg, reqs[..n], c, t);
      if reqs[n].client == c && t <= reqs[n].now < t + cfg.windowMs && PassesLast(cfg, reqs) {
        RunAccounts(cfg, reqs, c, reqs[n].now);
        BetweenIsDifference(cfg, reqs, c, t, t + cfg.windowMs);
      }
    }
  }

  function Burst(c: Client, now: int, n: nat): seq<Arrival> {
    seq(n, _ => Arrival(c, now))
  }

  lemma OnePasses(cfg: Limits, reqs: seq<Arrival>, c: Client, now: int, t: int)
    requires c in After(cfg, reqs) && !Expired(cfg, After(cfg, reqs)[c], now) && After(cfg, reqs)[c].count < cfg.max
    ensures var all := reqs + [Arrival(c, now)];
      var w := After(cfg, reqs)[c];
      && After(cfg, all) == After(cfg, reqs)[c := Window(w.start, w.count + 1)]
      && PassedSince(cfg, all, c, t) == PassedSince(cfg, reqs, c, t) + if now >= t then 1 else 0
  {
    var all := reqs + [Arrival(c, now)];
    assert all[..|all| - 1] == reqs;
  }

  // Requests that fit what is left of a live window all pass.
  lemma {:induction false} BurstPasses(cfg: Limits, reqs: seq<Arrival>, c: Client, now: int, n: nat, t: int)
    requires c in After(cfg, reqs) && !Expired(cfg, After(cfg, reqs)[c], now)
      && After(cfg, reqs)[c].count + n <= cfg.max
    ensures c in After(cfg, reqs + Burst(c, now, n))
    ensures After(cfg, reqs + Burst(c, now, n))[c] == Window(After(cfg, reqs)[c].start, After(cfg, reqs)[c].count + n)
    ensures PassedSince(cfg, reqs + Burst(c, now, n), c, t) == PassedSince(cfg, reqs, c, t) + if now >= t then n else 0
  {
    if n == 0 {
      assert reqs + Burst(c, now, n) == reqs;
    } else {
      var before := reqs + Burst(c, now, n - 1);
      assert reqs + Burst(c, now, n) == before + [Arrival(c, now)];
      BurstPasses(cfg, reqs, c, now, n - 1, t);
      OnePasses(cfg, before, c, now, t);
    }
  }

  lemma {:induction false} OnlyClient(cfg: Limits, reqs: seq<Arrival>, c: Client)
    requires forall i :: 0 <= i < |reqs| ==> reqs[i].client == c
    ensures After(cfg, reqs).Keys <= {c}
  {
    if reqs != [] {
      OnlyClient(cfg, reqs[..|reqs| - 1], c);
    }
  }

  // One request, then the rest of its window's limit just before it expires.
  lemma FillWindow(cfg: Limits, c: Client, t: int) returns (reqs: seq<Arrival>)
    requires cfg.windowMs > 1 && cfg.max > 0 && cfg.maxClients > 0 && t > 0
    ensures reqs == [Arrival(c, 0)] + Burst(c, cfg.windowMs - 1, cfg.max - 1)
    ensures After(cfg, reqs).Keys == {c} && After(cfg, reqs)[c].start == 0
    ensures PassedSince(cfg, reqs, c, t) == if t < cfg.windowMs then cfg.max - 1 else 0
  {
    var first := [Arrival(c, 0)];
    assert first[..0] == [];
    assert After(cfg, first) == map[c := Window(0, 1)];
    reqs := first + Burst(c, cfg.windowMs - 1, cfg.max - 1);
    BurstPasses(cfg, first, c, cfg.windowMs - 1, cfg.max - 1, t);
    OnlyClient(cfg, reqs, c);
  }

  lemma WindowReopens(cfg: Limits, filled: seq<Arrival>, c: Client, t: int)
    requires cfg.windowMs > 1 && cfg.max > 0 && cfg.maxClients > 0
    requires After(cfg, filled).Keys == {c} && After(cfg, filled)[c].start == 0
    ensures var next := filled + [Arrival(c, cfg.windowMs)];
      && c in After(cfg, next) && After(cfg, next)[c] == Window(cfg.windowMs, 1)
      && PassedSince(cfg, next, c, t) == PassedSince(cfg, filled, c, t) + if t <= cfg.windowMs then 1 else 0
  {
    var next := filled + [Arrival(c, cfg.windowMs)];
    assert next[..|next| - 1] == filled;
    assert Live(cfg, After(cfg, filled), cfg.windowMs) == map[];
  }

  // A full window's worth right when the old window has expired.
  lemma NextWindow(cfg: Limits, filled: seq<Arrival>, c: Client, t: int)
    requires cfg.windowMs > 1 && cfg.max > 0 && cfg.maxClients > 0
    requires After(cfg, filled).Keys == {c} && After(cfg, filled)[c].start == 0
    ensures PassedSince(cfg, filled + Burst(c, cfg.windowMs, cfg.max), c, t) ==
      PassedSince(cfg, filled, c, t) + if t <= cfg.windowMs then cfg.max else 0
  {
    var next := filled + [Arrival(c, cfg.windowMs)];
    WindowReopens(cfg, filled, c, t);
    BurstPasses(cfg, next, c, cfg.windowMs, cfg.max - 1, t);
    assert filled + Burst(c, cfg.windowMs, cfg.max) == next + Burst(c, cfg.windowMs, cfg.max - 1);
  }

  // The bound is met for every limit and every window longer than a millisecond: the rest of a window just
  // before its end, and a whole window after it.
  lemma BoundIsReached(cfg: Limits, c: Client) returns (reqs: seq<Arrival>, t: int)
    requires cfg.windowMs > 1 && cfg.max > 0 && cfg.maxClients > 0
    ensures ClockRises(reqs) && PassedBetween(cfg, reqs, c, t, t + cfg.windowMs) == Remainder(cfg) + cfg.max
  {
    var w := cfg.windowMs;
    var filled := FillWindow(cfg, c, 1);
    var _ := FillWindow(cfg, c, 1 + w);
    NextWindow(cfg, filled, c, 1);
    NextWindow(cfg, filled, c, 1 + w);
    reqs, t := filled + Burst(c, w, cfg.max), 1;
    BetweenIsDifference(cfg, reqs, c, t, t + w);
  }
}
