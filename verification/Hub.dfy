// server/internal/live/hub.go: the code itself, one call at a time. What the
// calls keep when they interleave is proved in HubProtocol.
module Hubs {
  import opened Signals
  import opened HubProtocol

  // A send with default: the buffer takes the signal or stays as it is.
  function Pushed(buf: seq<Event>, sig: Event): seq<Event> {
    if |buf| < BUFFER then buf + [sig] else buf
  }

  function PushedAll(buf: seq<Event>, sigs: seq<Event>): seq<Event>
    decreases |sigs|
  {
    if sigs == [] then buf else PushedAll(Pushed(buf, sigs[0]), sigs[1..])
  }

  // A run of sends keeps the first ones that fit and drops the rest.
  lemma {:induction false} PushedAllFits(buf: seq<Event>, sigs: seq<Event>)
    requires |buf| <= BUFFER
    ensures var room := BUFFER - |buf|;
            PushedAll(buf, sigs) == buf + sigs[..if |sigs| < room then |sigs| else room]
    decreases |sigs|
  {
    if sigs != [] {
      PushedAllFits(Pushed(buf, sigs[0]), sigs[1..]);
      assert sigs == [sigs[0]] + sigs[1..];
    }
  }

  lemma {:induction false} PushedAllAppend(buf: seq<Event>, sigs: seq<Event>, last: Event)
    ensures PushedAll(buf, sigs + [last]) == Pushed(PushedAll(buf, sigs), last)
    decreases |sigs|
  {
    if sigs == [] {
      assert sigs + [last] == [last] && [last][1..] == [];
    } else {
      assert (sigs + [last])[1..] == sigs[1..] + [last];
      PushedAllAppend(Pushed(buf, sigs[0]), sigs[1..], last);
    }
  }

  class Channel {
    var buf: seq<Event>
    var closed: bool

    constructor ()
      ensures buf == [] && !closed
    {
      buf, closed := [], false;
    }

    method TrySend(sig: Event)
      requires !closed
      modifies this
      ensures !closed && buf == Pushed(old(buf), sig)
    {
      if |buf| < BUFFER {
        buf := buf + [sig];
      }
    }

    method Receive() returns (sig: Event, ok: bool)
      requires buf != [] || closed
      modifies this
      ensures closed == old(closed) && ok == (old(buf) != [])
      ensures ok ==> sig == old(buf)[0] && buf == old(buf)[1..]
      ensures !ok ==> buf == []
    {
      ok := buf != [];
      if ok {
        sig := buf[0];
        buf := buf[1..];
      } else {
        sig := Event("", Time(ZERO_INSTANT, 0), "", "", "", "", "", map[]);
      }
    }

    method Close()
      requires !closed
      modifies this
      ensures closed && buf == old(buf)
    {
      closed := true;
    }
  }

  class Hub {
    var subs: map<nat, Channel>
    var next: nat

    ghost predicate Valid()
      reads this, subs.Values
    {
      && (forall id | id in subs :: id < next && !subs[id].closed)
      && (forall i, j | i in subs && j in subs && i != j :: subs[i] != subs[j])
    }

    constructor ()
      ensures Valid() && subs == map[] && next == 0
    {
      subs, next := map[], 0;
    }

    method Publish(sig: Event)
      requires Valid()
      modifies subs.Values
      ensures Valid()
      ensures forall id | id in subs :: subs[id].buf == Pushed(old(subs[id].buf), sig)
    {
      var todo := subs.Keys;
      while todo != {}
        invariant Valid() && todo <= subs.Keys
        invariant forall id | id in subs ::
                    subs[id].buf == if id in todo then old(subs[id].buf) else Pushed(old(subs[id].buf), sig)
        decreases todo
      {
        var id :| id in todo;
        todo := todo - {id};
        assert subs[id] in subs.Values;
        subs[id].TrySend(sig);
      }
    }

    method Subscribe() returns (id: nat, ch: Channel)
      requires Valid()
      modifies this
      ensures Valid() && fresh(ch) && ch.buf == []
      ensures id == old(next) && id !in old(subs) && subs == old(subs)[id := ch] && next == id + 1
    {
      ch := new Channel();
      id := next;
      next := next + 1;
      subs := subs[id := ch];
    }

    // The closure Subscribe returns; any call but the first does nothing.
    method Cancel(id: nat)
      requires Valid()
      modifies this`subs, subs.Values
      ensures Valid() && subs == old(subs) - {id}
      ensures id in old(subs) ==> old(subs)[id].closed && old(subs)[id].buf == old(subs[id].buf)
      ensures forall i | i in subs :: subs[i].buf == old(subs[i].buf)
    {
      if id in subs {
        var c := subs[id];
        assert c in subs.Values;
        subs := subs - {id};
        c.Close();
      }
    }
  }

  // The forwarding goroutine on a cancelled subscription: it passes on what
  // its filter lets through of what is still buffered, then leaves.
  method Forward(filter: Filter, ch: Channel, out: Channel)
    requires ch != out && ch.closed && !out.closed
    modifies ch, out
    ensures ch.buf == [] && out.closed
    ensures out.buf == PushedAll(old(out.buf), Filtered(filter, old(ch.buf)))
  {
    ghost var all := ch.buf;
    ghost var k := 0;
    while true
      invariant ch.closed && !out.closed && k <= |all| && ch.buf == all[k..]
      invariant out.buf == PushedAll(old(out.buf), Filtered(filter, all[..k]))
      decreases |ch.buf|
    {
      var sig, ok := ch.Receive();
      if !ok {
        assert all[..k] == all;
        break;
      }
      assert all[..k + 1][..k] == all[..k] && sig == all[k];
      if Matches(filter, sig) {
        PushedAllAppend(old(out.buf), Filtered(filter, all[..k]), sig);
        out.TrySend(sig);
      } else {
        assert Filtered(filter, all[..k + 1]) == Filtered(filter, all[..k]);
      }
      k := k + 1;
    }
    out.Close();
  }
}
