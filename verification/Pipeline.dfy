// server/internal/pipeline/pipeline.go: an ordered chain of processors.
module Pipelines {
  import opened Signals

  // The three results of Processor.Process and Pipeline.Process.
  datatype Verdict = Verdict(out: Event, keep: bool, err: Option<string>) {
    predicate Passes() {
      err.None? && keep
    }
  }

  // A processor is a function of the signal here; one that updates the event
  // in place is modelled in module Publishing.
  type Processor = Event -> Verdict

  function RunChain(ps: seq<Processor>, sig: Event): Verdict {
    if ps == [] then Verdict(sig, true, None)
    else
      var v := ps[0](sig);
      if v.err.Some? then Verdict(sig, false, v.err)
      else if !v.keep then Verdict(v.out, false, None)
      else RunChain(ps[1..], v.out)
  }

  // What the stages of ps make of sig when nothing stops it.
  function Through(ps: seq<Processor>, sig: Event): Event {
    if ps == [] then sig else ps[|ps| - 1](Through(ps[..|ps| - 1], sig)).out
  }

  // Stages 0..k all let the signal through.
  ghost predicate PassesUpTo(ps: seq<Processor>, sig: Event, k: nat)
    requires k <= |ps|
  {
    forall i | 0 <= i < k :: ps[i](Through(ps[..i], sig)).Passes()
  }

  lemma {:induction false} ChainConcat(a: seq<Processor>, b: seq<Processor>, sig: Event)
    ensures RunChain(a + b, sig) ==
            if RunChain(a, sig).Passes() then RunChain(b, RunChain(a, sig).out) else RunChain(a, sig)
    decreases |a|
  {
    if a == [] {
      assert a + b == b;
    } else {
      assert (a + b)[1..] == a[1..] + b;
      if a[0](sig).Passes() {
        ChainConcat(a[1..], b, a[0](sig).out);
      }
    }
  }

  // The chain is decided by its first stage that fails or drops: an error
  // gives back what that stage was given, a drop what it returned.
  lemma {:induction false} ChainStopsAtFirst(ps: seq<Processor>, sig: Event, k: nat)
    requires k <= |ps| && PassesUpTo(ps, sig, k)
    ensures k == |ps| ==> RunChain(ps, sig) == Verdict(Through(ps, sig), true, None)
    ensures k < |ps| && ps[k](Through(ps[..k], sig)).err.Some? ==>
              RunChain(ps, sig) == Verdict(Through(ps[..k], sig), false, ps[k](Through(ps[..k], sig)).err)
    ensures k < |ps| && ps[k](Through(ps[..k], sig)).err.None? && !ps[k](Through(ps[..k], sig)).keep ==>
              RunChain(ps, sig) == Verdict(ps[k](Through(ps[..k], sig)).out, false, None)
  {
    PrefixPasses(ps[..k], sig, ps);
    assert ps == ps[..k] + ps[k..];
    ChainConcat(ps[..k], ps[k..], sig);
    assert k == |ps| ==> ps[..k] == ps;
  }

  lemma {:induction false} PrefixPasses(front: seq<Processor>, sig: Event, ps: seq<Processor>)
    requires front <= ps && PassesUpTo(ps, sig, |front|)
    ensures RunChain(front, sig) == Verdict(Through(front, sig), true, None)
    decreases |front|
  {
    if front != [] {
      var m := |front| - 1;
      PrefixPasses(front[..m], sig, ps);
      assert front == front[..m] + [front[m]];
      ChainConcat(front[..m], [front[m]], sig);
      assert front[..m] == ps[..m];
      assert [front[m]][1..] == [];
    }
  }

  class Chain {
    const processors: seq<Processor>

    constructor (processors: seq<Processor>)
      ensures this.processors == processors
    {
      this.processors := processors;
    }

    method Process(sig: Event) returns (v: Verdict)
      ensures v == RunChain(processors, sig)
    {
      var cur := sig;
      for i := 0 to |processors|
        invariant RunChain(processors, sig) == RunChain(processors[i..], cur)
      {
        var r := processors[i](cur);
        assert processors[i..][1..] == processors[i + 1..];
        if r.err.Some? {
          return Verdict(cur, false, r.err);
        }
        if !r.keep {
          return Verdict(r.out, false, None);
        }
        cur := r.out;
      }
      return Verdict(cur, true, None);
    }
  }
}
