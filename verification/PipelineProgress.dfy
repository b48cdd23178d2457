/**
 The pipeline never deadlocks: every clock retires an instruction or brings one nearer to it.
 */
module PipelineProgress {
  import opened Isa
  import opened Pipeline
  import opened PipelineProof
  import opened PipelineTheorems

  /** Upper bound on the clocks, cache stalls aside, until the oldest instruction retires. */
  function Distance<M, S>(p: Pipe<M, S>): nat {
    if p.memWb.Full? then 0
    else if p.exMem.Full? then 1
    else if p.idEx.Full? then
      if p.exArmed then 1 + p.exLeft
      else if MulDivLatency(p.idEx.e.op.insn) > 0 then 1 + MulDivLatency(p.idEx.e.op.insn)
      else 2
    else if p.ifId.Full? then 18
    else 19
  }

  lemma DrainApproaches<M, S>(env: Platform<M, S>, q: Pipe<M, S>, next: Slot<MemWb>)
    requires Structure(q) && (next.Full? <==> q.exMem.Full?)
    ensures var r := Drain(env, q, next, false);
            r.cacheStall == q.cacheStall && (q.memWb.Empty? ==> Distance(r) < Distance(q))
  {
    hide ExecuteEx, Forwarded, FetchEntry, DecodeId, RepairedRedirect;
    AdvanceFrame(env, q, next, false);
    AdvanceFrame(env, q.(exLeft := 0, exArmed := false), next, false);
    if q.idEx.Empty? && q.ifId.Empty? {
      assert Advance(env, q, next, false).ifId.Full?;
    }
  }

  /** One clock of a running pipeline either waits for the cache, retires something, or brings the
      oldest instruction closer to commit. */
  lemma TickApproaches<M(!new), S(!new)>(env: Platform<M, S>, p: Pipe<M, S>, a: State<M, S>, penalty: Penalty)
    requires Inv(env, p, a)
    ensures Distance(p) < 20
    ensures var r := Tick(env, p, penalty);
            if p.cacheStall > 0 then r.cacheStall < p.cacheStall && Distance(r) == Distance(p)
            else RetiredBy(env, p) > 0 || Distance(r) < Distance(p)
  {
    hide Wired, Behind, MemCheck, MemStage, Drain, Step;
    Synced(env, p, a);
    if p.cacheStall == 0 && p.memWb.Empty? {
      if p.exMem.Empty? {
        DrainApproaches(env, p, Empty);
      } else if MemCheck(env, p.sys, p.exMem.e).None? {
        var (wb, mem) := MemStage(env, p.sys, p.mem, p.exMem.e);
        DrainApproaches(env, p.(mem := mem), Full(wb));
      }
    }
  }

  function Window(penalty: nat -> Penalty, t: nat, n: nat): (w: seq<Penalty>)
    ensures |w| == n
    decreases n
  {
    if n == 0 then [] else [penalty(t)] + Window(penalty, t + 1, n - 1)
  }

  lemma RunCons<M, S>(env: Platform<M, S>, p: Pipe<M, S>, x: Penalty, xs: seq<Penalty>)
    ensures Run(env, p, [x] + xs) == Run(env, Tick(env, p, x), xs)
    ensures RetiredIn(env, p, [x] + xs) == RetiredBy(env, p) + RetiredIn(env, Tick(env, p, x), xs)
  {
    assert ([x] + xs)[1..] == xs;
  }

  /** Whatever penalties the cache charges, the pipeline goes on to retire another instruction or
      stops: no hazard, hold or misprediction blocks it for ever. */
  lemma EventuallyRetires<M(!new), S(!new)>(env: Platform<M, S>, p: Pipe<M, S>, a: State<M, S>, penalty: nat -> Penalty, t: nat)
    returns (n: nat)
    requires Refines(env, p, a)
    ensures var run := Window(penalty, t, n);
            !Run(env, p, run).running || RetiredIn(env, p, run) > 0
    decreases Distance(p), p.cacheStall
  {
    hide Tick, RetiredBy, Distance, Inv;
    if !p.running {
      n := 0;
    } else if RetiredBy(env, p) > 0 {
      n := 1;
      RunCons(env, p, penalty(t), []);
    } else {
      var q := Tick(env, p, penalty(t));
      TickApproaches(env, p, a, penalty(t));
      TickRefines(env, p, a, penalty(t));
      var rest := EventuallyRetires(env, q, Steps(env, a, 0), penalty, t + 1);
      n := 1 + rest;
      RunCons(env, p, penalty(t), Window(penalty, t + 1, rest));
    }
  }
}
