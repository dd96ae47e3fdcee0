/** When waypoints are consumed, and why execution ends. */
module ExecutorScheduling {
  import opened Prelude
  import opened Words
  import opened Manifests
  import opened Servos
  import opened ExecutorModel

  /** Successive updates at the given clock readings. */
  function Updates(e: Exec, ws: seq<Waypoint>, d: Drive, times: seq<u32>): Exec
    decreases |times|
  {
    if times == [] then e else Updates(Update(e, ws, d, times[0]).0, ws, d, times[1..])
  }

  /** The waypoints in a number of whole passes. */
  function InPasses(passes: nat, ws: seq<Waypoint>): nat
  {
    if passes == 0 then 0 else InPasses(passes - 1, ws) + |ws|
  }

  lemma {:induction false} InPassesIsProduct(passes: nat, ws: seq<Waypoint>)
    ensures InPasses(passes, ws) == passes * |ws|
  {
    if passes > 0 { InPassesIsProduct(passes - 1, ws); }
  }

  lemma {:induction false} InPassesMonotone(p: nat, q: nat, ws: seq<Waypoint>)
    requires p <= q
    ensures InPasses(p, ws) <= InPasses(q, ws)
  {
    if p < q { InPassesMonotone(p, q - 1, ws); }
  }

  /** Waypoints consumed since `Start`, over all passes. */
  function Consumed(e: Exec, ws: seq<Waypoint>): nat
  {
    InPasses(e.passesDone, ws) + if e.mode == Running then e.index else 0
  }

  function Workload(e: Exec, ws: seq<Waypoint>): nat { InPasses(e.repeatTotal, ws) }

  predicate Active(e: Exec, ws: seq<Waypoint>)
  {
    && ws != [] && e.loaded
    && (e.mode == Running ==> Steppable(e, ws))
    && (e.mode == Done ==> e.passesDone == e.repeatTotal > 0 && e.index == |ws|)
  }

  // ----- One update -----

  /** Only the first waypoint of an update may carry dt 0; the update goes as far as it can. */
  lemma {:induction false} ConsumeStopsAtZeroDt(e: Exec, ws: seq<Waypoint>, since: u32)
    requires e.index <= |ws| && e.next <= |e.slots|
    ensures var c := Consume(e, ws, since);
            && e.index <= c.index <= |ws|
            && (forall i | e.index < i < c.index :: ws[i].dt > 0)
            && (c.index < |ws| ==> c.target > since || (e.index < c.index && ws[c.index].dt == 0))
    decreases |ws| - e.index
  {
    if Due(e, ws, since) {
      ConsumeStopsAtZeroDt(ConsumeOne(e, ws), ws, since);
    }
  }

  /** A due update consumes at least one waypoint and never runs past the end of its pass;
      an update that is not due changes nothing at all. */
  lemma UpdateAdvances(e: Exec, ws: seq<Waypoint>, d: Drive, now: u32)
    requires e.mode == Running && Active(e, ws)
    ensures var u := Update(e, ws, d, now).0;
            && Active(u, ws) && u.mode != Idle && u.repeatTotal == e.repeatTotal
            && (!Due(e, ws, Sub32(now, e.start)) ==> Update(e, ws, d, now) == (e, None))
            && (Due(e, ws, Sub32(now, e.start)) ==>
                  Consumed(e, ws) < Consumed(u, ws) <= InPasses(e.passesDone + 1, ws))
            && e.passesDone <= u.passesDone <= e.passesDone + 1
            && (e.passesDone < u.passesDone ==> Consumed(u, ws) == InPasses(u.passesDone, ws))
            && (u.mode == Done <==> Consumed(u, ws) == Workload(u, ws))
  {
    var since := Sub32(now, e.start);
    ConsumeShape(e, ws, since);
    UpdateKeepsShape(e, ws, d, now);
    var u := Update(e, ws, d, now).0;
    if u.mode == Running {
      LessWork(u, ws);
    }
  }

  /** A running execution has work left. */
  lemma LessWork(e: Exec, ws: seq<Waypoint>)
    requires e.mode == Running && Steppable(e, ws)
    ensures Consumed(e, ws) < InPasses(e.passesDone + 1, ws) <= Workload(e, ws)
  {
    InPassesMonotone(e.passesDone + 1, e.repeatTotal, ws);
  }

  /** An update keeps a started execution going, and its passes only grow. */
  lemma UpdateKeepsActive(e: Exec, ws: seq<Waypoint>, d: Drive, now: u32)
    requires Active(e, ws) && e.mode != Idle
    ensures var u := Update(e, ws, d, now).0;
            && Active(u, ws) && u.mode != Idle && u.repeatTotal == e.repeatTotal
            && e.passesDone <= u.passesDone
  {
    if e.mode == Running { UpdateAdvances(e, ws, d, now); }
  }

  lemma {:induction false} UpdatesKeepActive(e: Exec, ws: seq<Waypoint>, d: Drive, times: seq<u32>)
    requires Active(e, ws) && e.mode != Idle
    ensures var u := Updates(e, ws, d, times);
            && Active(u, ws) && u.mode != Idle && u.repeatTotal == e.repeatTotal
            && e.passesDone <= u.passesDone
    decreases |times|
  {
    if times != [] {
      UpdateKeepsActive(e, ws, d, times[0]);
      UpdatesKeepActive(Update(e, ws, d, times[0]).0, ws, d, times[1..]);
    }
  }

  // ----- Progress -----

  /** The progress reported is exactly the share of the waypoints consumed. */
  lemma ProgressIsShare(e: Exec, ws: seq<Waypoint>)
    requires Active(e, ws) && e.mode != Idle && e.repeatTotal > 0
    ensures Workload(e, ws) > 0
    ensures Progress(e, ws) == Consumed(e, ws) as real / Workload(e, ws) as real
  {
    InPassesMonotone(1, e.repeatTotal, ws);
    InPassesIsProduct(e.passesDone, ws);
    InPassesIsProduct(e.repeatTotal, ws);
    ShareOfShares(e.passesDone, if e.mode == Running then e.index else 0, |ws|, e.repeatTotal);
  }

  /** Progress stays in [0, 1] and reads 1 exactly when the execution is done. */
  lemma ProgressRange(e: Exec, ws: seq<Waypoint>)
    requires Active(e, ws) && e.mode != Idle && e.repeatTotal > 0
    ensures 0.0 <= Progress(e, ws) <= 1.0
    ensures Progress(e, ws) == 1.0 <==> e.mode == Done
  {
    ProgressIsShare(e, ws);
    if e.mode == Running {
      LessWork(e, ws);
      QuotientBelowOne(Consumed(e, ws), Workload(e, ws));
    } else {
      QuotientOfSelf(Workload(e, ws));
    }
  }

  lemma QuotientOfSelf(n: nat)
    requires n > 0
    ensures n as real / n as real == 1.0
  {
  }

  lemma ShareOfShares(p: nat, i: nat, n: nat, t: nat)
    requires n > 0 && t > 0 && t * n > 0
    ensures (p as real + i as real / n as real) / t as real == (p * n + i) as real / (t * n) as real
  {
  }

  lemma QuotientBelowOne(a: nat, b: nat)
    requires a < b
    ensures 0.0 <= a as real / b as real < 1.0
  {
  }

  lemma QuotientMonotone(a: nat, a': nat, b: nat)
    requires a <= a' && b > 0
    ensures a as real / b as real <= a' as real / b as real
  {
  }

  lemma ProgressNeverDecreases(e: Exec, ws: seq<Waypoint>, d: Drive, now: u32)
    requires Active(e, ws) && e.mode != Idle && e.repeatTotal > 0
    ensures Update(e, ws, d, now).0.repeatTotal == e.repeatTotal
    ensures Progress(e, ws) <= Progress(Update(e, ws, d, now).0, ws)
  {
    if e.mode == Running {
      UpdateAdvances(e, ws, d, now);
      var u := Update(e, ws, d, now).0;
      ProgressIsShare(e, ws);
      ProgressIsShare(u, ws);
      QuotientMonotone(Consumed(e, ws), Consumed(u, ws), Workload(e, ws));
    }
  }

  // ----- Whole executions -----

  /** Every update made while running comes after the target time of the next waypoint. */
  predicate AlwaysDue(e: Exec, ws: seq<Waypoint>, d: Drive, times: seq<u32>)
    decreases |times|
  {
    times != [] && e.mode == Running ==>
      Due(e, ws, Sub32(times[0], e.start)) && AlwaysDue(Update(e, ws, d, times[0]).0, ws, d, times[1..])
  }

  /** As many due updates as there are waypoints left always finish the execution. */
  lemma {:induction false} DueUpdatesFinish(e: Exec, ws: seq<Waypoint>, d: Drive, times: seq<u32>)
    requires Active(e, ws) && e.mode != Idle && AlwaysDue(e, ws, d, times)
    requires Consumed(e, ws) + |times| >= Workload(e, ws)
    ensures Updates(e, ws, d, times).mode == Done
    decreases |times|
  {
    if e.mode == Done {
      DoneStays(e, ws, d, times);
    } else {
      LessWork(e, ws);
      assert times != [];
      UpdateAdvances(e, ws, d, times[0]);
      DueUpdatesFinish(Update(e, ws, d, times[0]).0, ws, d, times[1..]);
    }
  }

  lemma {:induction false} DoneStays(e: Exec, ws: seq<Waypoint>, d: Drive, times: seq<u32>)
    requires e.mode != Running
    ensures Updates(e, ws, d, times) == e
    decreases |times|
  {
    if times != [] { DoneStays(e, ws, d, times[1..]); }
  }

  predicate AllZeroDt(ws: seq<Waypoint>) { forall i | 1 <= i < |ws| :: ws[i].dt == 0 }

  lemma ZeroDtStepsOne(e: Exec, ws: seq<Waypoint>, d: Drive, now: u32)
    requires e.mode == Running && Active(e, ws) && AllZeroDt(ws) && e.target == 0
    ensures var u := Update(e, ws, d, now).0;
            u.target == 0 && Consumed(u, ws) == Consumed(e, ws) + 1
  {
    var r := ConsumeOne(e, ws);
    assert Consume(e, ws, Sub32(now, e.start)) == r;
  }

  lemma {:induction false} ZeroDtUpdates(e: Exec, ws: seq<Waypoint>, d: Drive, times: seq<u32>)
    requires Active(e, ws) && e.mode != Idle && AllZeroDt(ws) && e.target == 0
    requires Consumed(e, ws) + |times| <= Workload(e, ws)
    ensures var u := Updates(e, ws, d, times);
            && Consumed(u, ws) == Consumed(e, ws) + |times|
            && (u.mode == Done <==> Consumed(u, ws) == Workload(e, ws))
    decreases |times|
  {
    if e.mode == Running { LessWork(e, ws); }
    if times != [] {
      UpdateAdvances(e, ws, d, times[0]);
      ZeroDtStepsOne(e, ws, d, times[0]);
      ZeroDtUpdates(Update(e, ws, d, times[0]).0, ws, d, times[1..]);
    }
  }

  /** A trajectory without any dt is stepped one waypoint an update: it takes exactly
      repeat * n updates, at whatever times they come. */
  lemma ZeroDtTakesExactly(e: Exec, m: Plan, d: Drive, t0: u32, t1: u32, times: seq<u32>)
    requires m.samples != [] && m.meta.repeatCount > 0 && AllZeroDt(m.samples)
    requires forall i | 0 <= i < |m.samples| :: |Actuated(m.samples[i].joints)| == |Home(m.samples)|
    ensures var s := Start(Load(e, m), m.samples, t0, t1);
            var total := m.meta.repeatCount * |m.samples|;
            && (|times| < total ==> Updates(s, m.samples, d, times).mode == Running)
            && (|times| >= total ==> Updates(s, m.samples, d, times).mode == Done)
  {
    var s := Start(Load(e, m), m.samples, t0, t1);
    var total := m.meta.repeatCount * |m.samples|;
    InPassesIsProduct(m.meta.repeatCount, m.samples);
    if |times| <= total {
      ZeroDtUpdates(s, m.samples, d, times);
      UpdatesKeepActive(s, m.samples, d, times);
    } else {
      ZeroDtUpdates(s, m.samples, d, times[..total]);
      UpdatesSplit(s, m.samples, d, times, total);
      DoneStays(Updates(s, m.samples, d, times[..total]), m.samples, d, times[total..]);
    }
  }

  lemma {:induction false} UpdatesSplit(e: Exec, ws: seq<Waypoint>, d: Drive, times: seq<u32>, k: nat)
    requires k <= |times|
    ensures Updates(e, ws, d, times) == Updates(Updates(e, ws, d, times[..k]), ws, d, times[k..])
    decreases |times|
  {
    if k > 0 {
      assert times[..k][1..] == times[1..][..k - 1];
      UpdatesSplit(Update(e, ws, d, times[0]).0, ws, d, times[1..], k - 1);
    }
  }
}
