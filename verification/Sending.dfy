// sdk/policy/level.go and the send path of sdk/agent/agent.go: hooks, format,
// selection of a transport, and failover.
module Sending {
  import opened Signals

  type Payload = seq<char>

  // A transport is a reference in the code; id stands for its identity.
  datatype Transport = Transport(id: nat, name: string, kind: string)

  datatype Attempt = Attempt(to: Transport, payload: Payload, ok: bool)

  // Whether the next Send on a transport succeeds, given all earlier attempts.
  type Network = (seq<Attempt>, Transport) -> bool

  class Wire {
    const network: Network
    var log: seq<Attempt>

    constructor (network: Network)
      ensures this.network == network && log == []
    {
      this.network := network;
      log := [];
    }

    method Send(t: Transport, payload: Payload) returns (ok: bool)
      modifies this
      ensures ok == network(old(log), t) && log == old(log) + [Attempt(t, payload, ok)]
    {
      ok := network(log, t);
      log := log + [Attempt(t, payload, ok)];
    }
  }

  // --- Policy -------------------------------------------------------------

  predicate IsReliableLevel(level: string) {
    var l := ToLower(level);
    l == "error" || l == "fatal" || l == "panic"
  }

  datatype LevelPolicy = LevelPolicy(defaultName: string, errorName: string, configName: string)

  predicate Answers(t: Transport, want: string) {
    t.name == want || t.kind == want
  }

  // The last transport known by this name or type.
  function LastNamed(ts: seq<Transport>, want: string): Option<Transport> {
    if ts == [] then None
    else if Answers(ts[|ts| - 1], want) then Some(ts[|ts| - 1])
    else LastNamed(ts[..|ts| - 1], want)
  }

  // The name a signal asks for.
  function Wanted(p: LevelPolicy, sig: Event): string {
    if sig.kind == KIND_CONFIG && p.configName != "" then p.configName
    else if IsReliableLevel(sig.level) && p.errorName != "" then p.errorName
    else p.defaultName
  }

  function Selected(p: LevelPolicy, sig: Event, available: seq<Transport>): seq<Transport> {
    if available == [] then []
    else if Wanted(p, sig) != "" && LastNamed(available, Wanted(p, sig)).Some?
    then [LastNamed(available, Wanted(p, sig)).value]
    else [available[0]]
  }

  method Select(p: LevelPolicy, sig: Event, available: seq<Transport>) returns (targets: seq<Transport>)
    ensures targets == Selected(p, sig, available)
  {
    if |available| == 0 {
      return [];
    }
    var byName: map<string, Transport> := map[];
    for i := 0 to |available|
      invariant forall name: string :: name in byName <==> LastNamed(available[..i], name).Some?
      invariant forall name | name in byName :: Some(byName[name]) == LastNamed(available[..i], name)
    {
      var t := available[i];
      assert available[..i + 1][..i] == available[..i];
      byName := byName[t.name := t];
      byName := byName[t.kind := t];
    }
    assert available[..|available|] == available;
    var want := p.defaultName;
    var level := ToLower(sig.level);
    if sig.kind == KIND_CONFIG && p.configName != "" {
      want := p.configName;
    } else if level == "error" || level == "fatal" || level == "panic" {
      if p.errorName != "" {
        want := p.errorName;
      }
    }
    if want != "" {
      if want in byName {
        return [byName[want]];
      }
    }
    return [available[0]];
  }

  lemma {:induction false} LastNamedIsLast(ts: seq<Transport>, want: string)
    ensures LastNamed(ts, want).None? <==> forall i | 0 <= i < |ts| :: !(ts[i].name == want || ts[i].kind == want)
    ensures LastNamed(ts, want).Some? ==>
              exists i | 0 <= i < |ts| ::
                && ts[i] == LastNamed(ts, want).value && (ts[i].name == want || ts[i].kind == want)
                && forall j | i < j < |ts| :: !(ts[j].name == want || ts[j].kind == want)
  {
    if ts != [] && !Answers(ts[|ts| - 1], want) {
      var front := ts[..|ts| - 1];
      LastNamedIsLast(front, want);
      if LastNamed(front, want).Some? {
        var i :| 0 <= i < |front| && front[i] == LastNamed(front, want).value && Answers(front[i], want)
                 && forall j | i < j < |front| :: !Answers(front[j], want);
        assert ts[i] == front[i];
        assert forall j | i < j < |ts| - 1 :: ts[j] == front[j];
      } else {
        assert forall i | 0 <= i < |ts| - 1 :: ts[i] == front[i];
      }
    }
  }

  // The policy picks one of the available transports whenever there is one:
  // the last that answers to the wanted name, or the first of all if none does
  // or no name is wanted.
  lemma SelectsOne(p: LevelPolicy, sig: Event, available: seq<Transport>)
    requires available != []
    ensures |Selected(p, sig, available)| == 1 && Selected(p, sig, available)[0] in available
    ensures var want, t := Wanted(p, sig), Selected(p, sig, available)[0];
            if want != "" && exists i | 0 <= i < |available| :: available[i].name == want || available[i].kind == want
            then exists i | 0 <= i < |available| ::
                   && available[i] == t && (t.name == want || t.kind == want)
                   && forall j | i < j < |available| :: !(available[j].name == want || available[j].kind == want)
            else t == available[0]
  {
    LastNamedIsLast(available, Wanted(p, sig));
  }

  function NewLevelPolicy(defaultName: string, errorName: string): LevelPolicy {
    LevelPolicy(defaultName, errorName, errorName)
  }

  // With the policy NewLevelPolicy makes, config signals and those of a
  // reliable level, in any case, want the error transport if one is named; all
  // other signals want the default one.
  lemma WantsErrorTransport(defaultName: string, errorName: string, sig: Event)
    ensures Wanted(NewLevelPolicy(defaultName, errorName), sig)
            == if errorName != "" && (sig.kind == "config" || ToLower(sig.level) in ["error", "fatal", "panic"])
               then errorName else defaultName
  {
    assert forall l: string :: l in ["error", "fatal", "panic"] <==> l == "error" || l == "fatal" || l == "panic";
  }

  // A policy may also name a third transport for config signals. Each name is
  // asked for by its own signals if it is set; a config signal without one is
  // treated by its level.
  lemma WantsByLevel(p: LevelPolicy, sig: Event)
    ensures p.configName != "" && sig.kind == "config" ==> Wanted(p, sig) == p.configName
    ensures p.errorName != "" && (sig.kind != "config" || p.configName == "") ==>
              Wanted(p, sig)
              == if ToLower(sig.level) in ["error", "fatal", "panic"] then p.errorName else p.defaultName
    ensures p.errorName == "" && (sig.kind != "config" || p.configName == "") ==> Wanted(p, sig) == p.defaultName
  {
    assert forall l: string :: l in ["error", "fatal", "panic"] <==> l == "error" || l == "fatal" || l == "panic";
  }

  // --- Failover -----------------------------------------------------------

  // The log and whether an error is returned.
  datatype Outcome = Outcome(log: seq<Attempt>, failed: bool)

  function Tried(net: Network, log: seq<Attempt>, t: Transport, payload: Payload): seq<Attempt> {
    log + [Attempt(t, payload, net(log, t))]
  }

  function Fallback(net: Network, log: seq<Attempt>, failed: Transport, ts: seq<Transport>, payload: Payload): Outcome
    decreases |ts|
  {
    if ts == [] then Outcome(log, false)
    else if ts[0] == failed then Fallback(net, log, failed, ts[1..], payload)
    else if net(log, ts[0]) then Outcome(Tried(net, log, ts[0], payload), false)
    else
      var rest := Fallback(net, Tried(net, log, ts[0], payload), failed, ts[1..], payload);
      Outcome(rest.log, !Succeeded(rest.log))
  }

  predicate Succeeded(log: seq<Attempt>) {
    log != [] && log[|log| - 1].ok
  }

  function Others(ts: seq<Transport>, t: Transport): seq<Transport> {
    if ts == [] then []
    else if ts[0] == t then Others(ts[1..], t)
    else [ts[0]] + Others(ts[1..], t)
  }

  lemma {:induction false} OthersOf(ts: seq<Transport>, t: Transport)
    ensures forall x :: x in Others(ts, t) <==> x in ts && x != t
    ensures Others(ts, t) == [] <==> forall x | x in ts :: x == t
  {
    if ts != [] {
      OthersOf(ts[1..], t);
      assert ts == [ts[0]] + ts[1..];
      assert ts[0] in ts;
    }
  }

  // In list order.
  lemma {:induction false} OthersConcat(a: seq<Transport>, b: seq<Transport>, t: Transport)
    ensures Others(a + b, t) == Others(a, t) + Others(b, t)
  {
    if a == [] {
      assert a + b == b;
    } else {
      assert (a + b)[1..] == a[1..] + b;
      OthersConcat(a[1..], b, t);
    }
  }

  // `extra` is what trying `order` in turn appends to a log when each try is
  // answered by the network and the first success ends it.
  predicate TriedInOrder(net: Network, log: seq<Attempt>, extra: seq<Attempt>, order: seq<Transport>, payload: Payload)
    decreases |extra|
  {
    if extra == [] then order == []
    else
      && order != []
      && extra[0] == Attempt(order[0], payload, net(log, order[0]))
      && if extra[0].ok then |extra| == 1 else TriedInOrder(net, log + [extra[0]], extra[1..], order[1..], payload)
  }

  // The same attempt by attempt: the i-th goes to the i-th of the order and is
  // answered after the ones before it.
  lemma {:induction false} TriedAnswers(net: Network, log: seq<Attempt>, extra: seq<Attempt>, order: seq<Transport>,
                                        payload: Payload)
    requires TriedInOrder(net, log, extra, order, payload)
    ensures |extra| <= |order|
    ensures forall i | 0 <= i < |extra| :: extra[i] == Attempt(order[i], payload, net(log + extra[..i], order[i]))
    decreases |extra|
  {
    if extra != [] {
      assert log + extra[..0] == log;
      if !extra[0].ok {
        var next, rest := log + [extra[0]], extra[1..];
        TriedAnswers(net, next, rest, order[1..], payload);
        forall i | 0 < i < |extra|
          ensures extra[i] == Attempt(order[i], payload, net(log + extra[..i], order[i]))
        {
          assert extra[i] == rest[i - 1] && order[i] == order[1..][i - 1];
          assert log + extra[..i] == next + rest[..i - 1];
        }
      }
    }
  }

  // Only the last can succeed, and if it does not all have been tried.
  lemma {:induction false} TriedOutcome(net: Network, log: seq<Attempt>, extra: seq<Attempt>, order: seq<Transport>,
                                        payload: Payload)
    requires TriedInOrder(net, log, extra, order, payload)
    ensures forall i | 0 <= i < |extra| && extra[i].ok :: i == |extra| - 1
    ensures (exists i | 0 <= i < |extra| :: extra[i].ok) <==> Succeeded(extra)
    ensures |extra| == |order| || Succeeded(extra)
    decreases |extra|
  {
    if extra != [] {
      if !extra[0].ok {
        var rest := extra[1..];
        TriedOutcome(net, log + [extra[0]], rest, order[1..], payload);
        assert forall i | 0 < i < |extra| :: extra[i] == rest[i - 1];
      }
    }
  }

  // fallbackSend tries every other transport in list order up to the first
  // success, and returns nil exactly when one succeeded or there was none to try.
  lemma {:induction false} FallbackTries(net: Network, log: seq<Attempt>, failed: Transport, ts: seq<Transport>,
                                         payload: Payload)
    returns (extra: seq<Attempt>)
    ensures Fallback(net, log, failed, ts, payload).log == log + extra
    ensures TriedInOrder(net, log, extra, Others(ts, failed), payload)
    ensures Fallback(net, log, failed, ts, payload).failed <==> Others(ts, failed) != [] && !Succeeded(extra)
    decreases |ts|, 1
  {
    if ts == [] {
      extra := [];
      assert log + [] == log;
    } else if ts[0] == failed {
      extra := FallbackTries(net, log, failed, ts[1..], payload);
    } else {
      var a := Attempt(ts[0], payload, net(log, ts[0]));
      var order := Others(ts, failed);
      assert order[0] == ts[0] && order[1..] == Others(ts[1..], failed);
      if a.ok {
        extra := [a];
      } else {
        extra := FallbackOn(net, log, a, failed, ts, payload);
      }
    }
  }

  lemma FallbackOn(net: Network, log: seq<Attempt>, a: Attempt, failed: Transport, ts: seq<Transport>, payload: Payload)
    returns (extra: seq<Attempt>)
    requires ts != [] && ts[0] != failed && a == Attempt(ts[0], payload, net(log, ts[0])) && !a.ok
    ensures Fallback(net, log, failed, ts, payload).log == log + extra
    ensures TriedInOrder(net, log, extra, Others(ts, failed), payload)
    ensures Fallback(net, log, failed, ts, payload).failed <==> !Succeeded(extra)
    decreases |ts|, 0
  {
    var more := FallbackTries(net, log + [a], failed, ts[1..], payload);
    extra := [a] + more;
    FallbackNext(net, log, a, failed, ts, payload);
    OrderNext(net, log, a, more, failed, ts, payload);
    SucceededLast(log, extra);
    assert log + extra == log + [a] + more;
  }

  lemma FallbackNext(net: Network, log: seq<Attempt>, a: Attempt, failed: Transport, ts: seq<Transport>,
                     payload: Payload)
    requires ts != [] && ts[0] != failed && a == Attempt(ts[0], payload, net(log, ts[0])) && !a.ok
    ensures var rest := Fallback(net, log + [a], failed, ts[1..], payload);
            Fallback(net, log, failed, ts, payload) == Outcome(rest.log, !Succeeded(rest.log))
  {
  }

  lemma OrderNext(net: Network, log: seq<Attempt>, a: Attempt, more: seq<Attempt>, failed: Transport,
                  ts: seq<Transport>, payload: Payload)
    requires ts != [] && ts[0] != failed && a == Attempt(ts[0], payload, net(log, ts[0])) && !a.ok
    requires TriedInOrder(net, log + [a], more, Others(ts[1..], failed), payload)
    ensures TriedInOrder(net, log, [a] + more, Others(ts, failed), payload)
  {
    var order := Others(ts, failed);
    assert order[0] == ts[0] && order[1..] == Others(ts[1..], failed);
    assert ([a] + more)[1..] == more;
  }

  lemma SucceededLast(log: seq<Attempt>, extra: seq<Attempt>)
    requires extra != []
    ensures Succeeded(log + extra) == Succeeded(extra)
  {
  }

  // The loop of sendOne over the selected transports, from the i-th on.
  function Deliver(net: Network, log: seq<Attempt>, targets: seq<Transport>, ts: seq<Transport>, payload: Payload,
                   reliable: bool, failed: bool): Outcome
    decreases |targets|
  {
    if targets == [] then Outcome(log, failed)
    else
      var sent := Tried(net, log, targets[0], payload);
      if net(log, targets[0]) then Deliver(net, sent, targets[1..], ts, payload, reliable, failed)
      else if reliable then
        var fb := Fallback(net, sent, targets[0], ts, payload);
        Deliver(net, fb.log, targets[1..], ts, payload, reliable, fb.failed)
      else Deliver(net, sent, targets[1..], ts, payload, reliable, true)
  }

  // One selected transport, the case of LevelPolicy. At most one Send
  // succeeds, and it is the last one. An unreliable level makes one attempt; a
  // reliable one tries the target, then the others in list order. The result
  // is nil exactly when the signal was delivered, or the level is reliable and
  // there is no other transport.
  lemma OneTarget(net: Network, log: seq<Attempt>, t: Transport, ts: seq<Transport>, payload: Payload, reliable: bool)
    returns (extra: seq<Attempt>)
    ensures var r := Deliver(net, log, [t], ts, payload, reliable, false);
            && r.log == log + extra
            && TriedInOrder(net, log, extra, if reliable then [t] + Others(ts, t) else [t], payload)
            && (!r.failed <==> Succeeded(extra) || (reliable && Others(ts, t) == []))
  {
    var a := Attempt(t, payload, net(log, t));
    DeliverOne(net, log, t, ts, payload, reliable);
    if a.ok || !reliable {
      extra := [a];
    } else {
      var more := FallbackTries(net, log + [a], t, ts, payload);
      var order := [t] + Others(ts, t);
      assert order[1..] == Others(ts, t);
      extra := [a] + more;
      assert log + extra == log + [a] + more;
      assert more != [] ==> extra[|extra| - 1] == more[|more| - 1];
    }
  }

  lemma DeliverOne(net: Network, log: seq<Attempt>, t: Transport, ts: seq<Transport>, payload: Payload, reliable: bool)
    ensures Deliver(net, log, [t], ts, payload, reliable, false) ==
            var sent := Tried(net, log, t, payload);
            if net(log, t) then Outcome(sent, false)
            else if reliable then Fallback(net, sent, t, ts, payload)
            else Outcome(sent, true)
  {
    assert [t][1..] == [];
  }

  // A reliable level is one of three, in any case.
  lemma ReliableLevels(level: string)
    ensures IsReliableLevel(level) <==> ToLower(level) in ["error", "fatal", "panic"]
  {
    assert forall l: string :: l in ["error", "fatal", "panic"] <==> l == "error" || l == "fatal" || l == "panic";
  }

  // Two lists of targets are tried one after the other, and an error of the
  // first list is carried into the second.
  lemma {:induction false} DeliverConcat(net: Network, log: seq<Attempt>, a: seq<Transport>, b: seq<Transport>,
                                         ts: seq<Transport>, payload: Payload, reliable: bool, failed: bool)
    ensures var r := Deliver(net, log, a, ts, payload, reliable, failed);
            Deliver(net, log, a + b, ts, payload, reliable, failed)
            == Deliver(net, r.log, b, ts, payload, reliable, r.failed)
    decreases |a|
  {
    if a == [] {
      assert a + b == b;
    } else {
      var sent, rest := Tried(net, log, a[0], payload), a[1..];
      var fb := Fallback(net, sent, a[0], ts, payload);
      assert (a + b)[0] == a[0] && (a + b)[1..] == rest + b;
      if net(log, a[0]) {
        DeliverConcat(net, sent, rest, b, ts, payload, reliable, failed);
      } else if reliable {
        DeliverConcat(net, fb.log, rest, b, ts, payload, reliable, fb.failed);
      } else {
        DeliverConcat(net, sent, rest, b, ts, payload, reliable, true);
      }
    }
  }

  // What one target does to an error recorded before it: a success leaves it,
  // a failure of an unreliable level sets it, and the failover of a reliable
  // one replaces it by its own.
  lemma DeliverAfter(net: Network, log: seq<Attempt>, t: Transport, ts: seq<Transport>, payload: Payload,
                     reliable: bool, failed: bool)
    ensures var r := Deliver(net, log, [t], ts, payload, reliable, failed);
            && r.log == Deliver(net, log, [t], ts, payload, reliable, false).log
            && r.failed == if net(log, t) then failed else Deliver(net, log, [t], ts, payload, reliable, false).failed
  {
    assert [t][1..] == [];
  }

  // When the failed transport is the only one, fallbackSend has nothing to try
  // and sendOne reports success for a signal nobody received.
  lemma LoneTransportHidesFailure(net: Network, log: seq<Attempt>, t: Transport, payload: Payload)
    requires !net(log, t)
    ensures Deliver(net, log, [t], [t], payload, true, false) == Outcome(log + [Attempt(t, payload, false)], false)
  {
    DeliverOne(net, log, t, [t], payload, true);
    assert [t][1..] == [];
  }

  // A signal on its way through the default policy.
  lemma LevelPolicyDelivery(net: Network, log: seq<Attempt>, p: LevelPolicy, sig: Event, available: seq<Transport>,
                            payload: Payload) returns (extra: seq<Attempt>)
    requires available != []
    ensures var t := Selected(p, sig, available)[0];
            var reliable := IsReliableLevel(sig.level);
            var r := Deliver(net, log, Selected(p, sig, available), available, payload, reliable, false);
            && r.log == log + extra
            && (forall i | 0 <= i < |extra| && extra[i].ok :: i == |extra| - 1)
            && (forall i | 0 <= i < |extra| :: extra[i].to in available && extra[i].payload == payload)
            && (!r.failed <==> (exists i | 0 <= i < |extra| :: extra[i].ok)
                               || (reliable && forall u | u in available :: u == t))
  {
    SelectsOne(p, sig, available);
    var t := Selected(p, sig, available)[0];
    assert Selected(p, sig, available) == [t];
    extra := OneTarget(net, log, t, available, payload, IsReliableLevel(sig.level));
    OthersOf(available, t);
    var order := if IsReliableLevel(sig.level) then [t] + Others(available, t) else [t];
    TriedAnswers(net, log, extra, order, payload);
    TriedOutcome(net, log, extra, order, payload);
    assert forall u | u in order :: u in available;
    assert Others(available, t) == [] <==> forall u | u in available :: u == t;
  }

  lemma {:induction false} DeliverExtends(net: Network, log: seq<Attempt>, targets: seq<Transport>, ts: seq<Transport>,
                                          payload: Payload, reliable: bool, failed: bool)
    ensures log <= Deliver(net, log, targets, ts, payload, reliable, failed).log
    decreases |targets|
  {
    if targets != [] {
      var sent := Tried(net, log, targets[0], payload);
      var extra := FallbackTries(net, sent, targets[0], ts, payload);
      var fb := Fallback(net, sent, targets[0], ts, payload);
      DeliverExtends(net, sent, targets[1..], ts, payload, reliable, failed);
      DeliverExtends(net, sent, targets[1..], ts, payload, reliable, true);
      DeliverExtends(net, fb.log, targets[1..], ts, payload, reliable, fb.failed);
    }
  }

  // Any other policy, selecting several transports: nil means that some Send
  // of this signal succeeded, unless the level is reliable and a selected
  // transport is the only one there is.
  lemma {:induction false} NilMeansDelivered(net: Network, log: seq<Attempt>, targets: seq<Transport>,
                                             ts: seq<Transport>, payload: Payload, reliable: bool, failed: bool)
    requires targets != []
    requires !Deliver(net, log, targets, ts, payload, reliable, failed).failed
    ensures var r := Deliver(net, log, targets, ts, payload, reliable, failed);
            || (exists i | |log| <= i < |r.log| :: r.log[i].ok)
            || (reliable && exists t | t in targets :: Others(ts, t) == [])
    decreases |targets|
  {
    var r := Deliver(net, log, targets, ts, payload, reliable, failed);
    var t, rest := targets[0], targets[1..];
    var sent := Tried(net, log, t, payload);
    if net(log, t) {
      DeliverExtends(net, sent, rest, ts, payload, reliable, failed);
      assert r.log[|log|] == sent[|log|];
    } else if reliable {
      var extra := FallbackTries(net, sent, t, ts, payload);
      var fb := Fallback(net, sent, t, ts, payload);
      if Succeeded(extra) {
        DeliverExtends(net, fb.log, rest, ts, payload, reliable, fb.failed);
        assert r.log[|fb.log| - 1] == fb.log[|fb.log| - 1] == extra[|extra| - 1];
      } else if fb.failed {
        NilMeansDelivered(net, fb.log, rest, ts, payload, reliable, fb.failed);
      }
    } else {
      NilMeansDelivered(net, sent, rest, ts, payload, reliable, true);
    }
  }

  // --- sendOne ------------------------------------------------------------

  datatype Hooked = Hooked(out: Event, keep: bool)

  function RunHooks(hooks: seq<Event -> Hooked>, sig: Event): Hooked {
    if hooks == [] then Hooked(sig, true)
    else
      var h := hooks[0](sig);
      if h.keep then RunHooks(hooks[1..], h.out) else h
  }

  // One hook decides what is sent, and of two lists of hooks the second is
  // given what the first made of the signal, unless that dropped it.
  lemma HooksOne(hook: Event -> Hooked, sig: Event)
    ensures RunHooks([hook], sig) == hook(sig)
  {
    assert [hook][1..] == [];
    assert hook(sig).keep ==> Hooked(hook(sig).out, true) == hook(sig);
  }

  lemma {:induction false} HooksConcat(a: seq<Event -> Hooked>, b: seq<Event -> Hooked>, sig: Event)
    ensures var h := RunHooks(a, sig);
            RunHooks(a + b, sig) == if h.keep then RunHooks(b, h.out) else h
    decreases |a|
  {
    if a == [] {
      assert a + b == b;
    } else {
      assert (a + b)[0] == a[0] && (a + b)[1..] == a[1..] + b;
      HooksConcat(a[1..], b, a[0](sig).out);
    }
  }

  // A signal is kept iff every hook keeps what the ones before it made of it;
  // the first that does not ends it.
  lemma {:induction false} HooksKeep(hooks: seq<Event -> Hooked>, sig: Event)
    ensures RunHooks(hooks, sig).keep
            <==> forall i | 0 <= i < |hooks| :: hooks[i](RunHooks(hooks[..i], sig).out).keep
    decreases |hooks|
  {
    if hooks != [] {
      var m := |hooks| - 1;
      var front := hooks[..m];
      assert hooks == front + [hooks[m]];
      HooksKeep(front, sig);
      HooksConcat(front, [hooks[m]], sig);
      HooksOne(hooks[m], RunHooks(front, sig).out);
      forall i | 0 <= i < m
        ensures hooks[i](RunHooks(hooks[..i], sig).out).keep <==> front[i](RunHooks(front[..i], sig).out).keep
      {
        assert hooks[..i] == front[..i];
      }
    }
  }

  type Format = Event -> Result<Payload, string>

  type Policy = (Event, seq<Transport>) -> seq<Transport>

  const SEND_FAILED := "send failed"
  const NO_TRANSPORT := "sdk/agent: no transport selected"

  class Agent {
    const hooks: seq<Event -> Hooked>
    const format: Format
    const policy: Policy
    const transports: seq<Transport>
    const wire: Wire

    constructor (hooks: seq<Event -> Hooked>, format: Format, policy: Policy, transports: seq<Transport>, wire: Wire)
      ensures this.hooks == hooks && this.format == format && this.policy == policy
      ensures this.transports == transports && this.wire == wire
    {
      this.hooks := hooks;
      this.format := format;
      this.policy := policy;
      this.transports := transports;
      this.wire := wire;
    }

    method FallbackSend(failed: Transport, payload: Payload) returns (err: bool)
      modifies wire
      ensures Outcome(wire.log, err) == Fallback(wire.network, old(wire.log), failed, transports, payload)
    {
      var first := false;
      for i := 0 to |transports|
        invariant first ==> !Succeeded(wire.log)
        invariant var rest := Fallback(wire.network, wire.log, failed, transports[i..], payload);
                  Fallback(wire.network, old(wire.log), failed, transports, payload)
                  == if first then Outcome(rest.log, !Succeeded(rest.log)) else rest
      {
        assert transports[i..][1..] == transports[i + 1..];
        if transports[i] != failed {
          var ok := wire.Send(transports[i], payload);
          if ok {
            return false;
          }
          first := true;
        }
      }
      return first;
    }

    method SendOne(sig: Event) returns (err: Option<string>)
      modifies wire
      ensures var h := RunHooks(hooks, sig);
              !h.keep ==> err == None && wire.log == old(wire.log)
      ensures var h := RunHooks(hooks, sig);
              h.keep && format(h.out).Err? ==> err == Some(format(h.out).error) && wire.log == old(wire.log)
      ensures var h := RunHooks(hooks, sig);
              h.keep && format(h.out).Ok? && policy(h.out, transports) == [] ==>
                err == Some(NO_TRANSPORT) && wire.log == old(wire.log)
      ensures var h := RunHooks(hooks, sig);
              h.keep && format(h.out).Ok? && policy(h.out, transports) != [] ==>
                && (err == None || err == Some(SEND_FAILED))
                && Outcome(wire.log, err.Some?)
                == Deliver(wire.network, old(wire.log), policy(h.out, transports), transports, format(h.out).value,
                           IsReliableLevel(h.out.level), false)
    {
      var cur := sig;
      for i := 0 to |hooks|
        invariant RunHooks(hooks, sig) == RunHooks(hooks[i..], cur)
        invariant wire.log == old(wire.log)
      {
        var h := hooks[i](cur);
        assert hooks[i..][1..] == hooks[i + 1..];
        if !h.keep {
          return None;
        }
        cur := h.out;
      }
      var formatted := format(cur);
      if formatted.Err? {
        return Some(formatted.error);
      }
      var payload := formatted.value;
      var targets := policy(cur, transports);
      if |targets| == 0 {
        return Some(NO_TRANSPORT);
      }
      var first := false;
      for i := 0 to |targets|
        invariant Deliver(wire.network, old(wire.log), targets, transports, payload, IsReliableLevel(cur.level), false)
               == Deliver(wire.network, wire.log, targets[i..], transports, payload, IsReliableLevel(cur.level), first)
      {
        assert targets[i..][1..] == targets[i + 1..];
        var ok := wire.Send(targets[i], payload);
        if !ok {
          first := true;
          if IsReliableLevel(cur.level) {
            var fb := FallbackSend(targets[i], payload);
            if !fb {
              first := false;
            }
          }
        }
      }
      return if first then Some(SEND_FAILED) else None;
    }
  }
}
