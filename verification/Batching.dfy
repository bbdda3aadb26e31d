// Cutting a sequence of signals into the batches the dispatcher's loop hands
// to the outputs.
module Batching {
  function Flatten<T>(batches: seq<seq<T>>): seq<T> {
    if batches == [] then [] else batches[0] + Flatten(batches[1..])
  }

  lemma Assoc<T>(a: seq<T>, b: seq<T>, c: seq<T>)
    ensures a + (b + c) == a + b + c
  {
  }

  lemma FlattenAppend<T>(batches: seq<seq<T>>, last: seq<T>)
    ensures Flatten(batches + [last]) == Flatten(batches) + last
  {
    if batches == [] {
      assert batches + [last] == [last];
    } else {
      assert (batches + [last])[1..] == batches[1..] + [last];
      FlattenAppend(batches[1..], last);
    }
  }

  // The batches a loop that flushes at n signals makes of xs, the remainder
  // being flushed at the end.
  function Chunks<T>(n: nat, xs: seq<T>): seq<seq<T>>
    requires n > 0
    decreases |xs|
  {
    if xs == [] then []
    else if |xs| <= n then [xs]
    else [xs[..n]] + Chunks(n, xs[n..])
  }

  function CeilDiv(k: nat, n: nat): nat
    requires n > 0
  {
    (k + n - 1) / n
  }

  lemma CeilDivStep(k: nat, n: nat)
    requires n > 0 && k > n
    ensures CeilDiv(k, n) == 1 + CeilDiv(k - n, n)
  {
    assert (k + n - 1) == (k - n + n - 1) + n;
    DivPlusOne(k - n + n - 1, n);
  }

  // k signals do not fit into fewer batches of n.
  lemma CeilDivLeast(k: nat, n: nat, m: nat)
    requires n > 0 && k <= n * m
    ensures CeilDiv(k, n) <= m
  {
    var q := CeilDiv(k, n);
    assert k + n - 1 == n * q + (k + n - 1) % n;
    MulStep(n, m, q);
  }

  lemma DivPlusOne(a: nat, n: nat)
    requires n > 0
    ensures (a + n) / n == a / n + 1
  {
    assert a == n * (a / n) + a % n;
    assert a + n == n * (a / n + 1) + a % n by {
      assert n * (a / n + 1) == n * (a / n) + n;
    }
    DivUnique(a + n, n, a / n + 1, a % n);
  }

  lemma DivUnique(a: nat, n: nat, q: nat, r: nat)
    requires n > 0 && r < n && a == n * q + r
    ensures a / n == q
  {
    MulStep(n, q, a / n);
    MulStep(n, a / n, q);
  }

  lemma {:induction false} MulStep(n: nat, a: nat, b: nat)
    ensures a < b ==> n * a + n <= n * b
    decreases b
  {
    if a + 1 < b {
      MulStep(n, a, b - 1);
    }
  }

  // Chunking loses, repeats and reorders nothing, never makes an empty or an
  // oversized batch, makes all but the last one full, and makes the least
  // number of batches.
  lemma {:induction false} ChunksPartition<T>(n: nat, xs: seq<T>)
    requires n > 0
    ensures Flatten(Chunks(n, xs)) == xs
    ensures forall i | 0 <= i < |Chunks(n, xs)| :: 0 < |Chunks(n, xs)[i]| <= n
    ensures forall i | 0 <= i < |Chunks(n, xs)| - 1 :: |Chunks(n, xs)[i]| == n
    ensures |Chunks(n, xs)| == CeilDiv(|xs|, n)
    decreases |xs|
  {
    if xs == [] {
      DivUnique(n - 1, n, 0, n - 1);
    } else if |xs| <= n {
      assert Flatten([xs]) == xs + Flatten([]) == xs;
      DivUnique(|xs| + n - 1, n, 1, |xs| - 1);
    } else {
      ChunksPartition(n, xs[n..]);
      assert Chunks(n, xs)[1..] == Chunks(n, xs[n..]);
      assert xs == xs[..n] + xs[n..];
      CeilDivStep(|xs|, n);
    }
  }

  // A full batch at the front is cut off whatever follows it.
  lemma ChunksFull<T>(n: nat, front: seq<T>, rest: seq<T>)
    requires n > 0 && |front| == n
    ensures Chunks(n, front + rest) == [front] + Chunks(n, rest)
  {
    if rest == [] {
      assert front + rest == front;
    } else {
      assert (front + rest)[..n] == front;
      assert (front + rest)[n..] == rest;
    }
  }
}
