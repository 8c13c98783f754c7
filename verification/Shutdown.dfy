/** Gradual shutdown: connections are told to close a few at a time, within the time allowed. */
module Shutdown {

  /** 200 milliseconds, in nanoseconds. */
  const chunkDuration: nat := 200_000_000

  function Max1(n: nat): (m: nat)
    ensures m >= 1 && m >= n
  {
    if n == 0 then 1 else n
  }

  function NumChunks(duration: nat): nat {
    Max1(duration / chunkDuration)
  }

  function DivCeil(n: nat, d: nat): nat
    requires d > 0
  {
    (n + d - 1) / d
  }

  /** As many rounds as there are chunks are enough. */
  lemma {:induction false} RoundsSuffice(n: nat, chunks: nat, perRound: nat)
    requires chunks > 0 && perRound == Max1(DivCeil(n, chunks))
    ensures n <= chunks * perRound
  {
    var q := DivCeil(n, chunks);
    assert n + chunks - 1 == q * chunks + (n + chunks - 1) % chunks;
    assert chunks * q <= chunks * perRound;
  }

  /** How many connections each round tells, `perRound` at a time. */
  function Rounds(n: nat, perRound: nat): seq<nat>
    requires perRound > 0
  {
    if n == 0 then [] else if n <= perRound then [n] else [perRound] + Rounds(n - perRound, perRound)
  }

  function Sum(sizes: seq<nat>): nat {
    if sizes == [] then 0 else sizes[0] + Sum(sizes[1..])
  }

  lemma {:induction false} RoundsBounded(n: nat, perRound: nat, chunks: nat)
    requires perRound > 0 && n <= chunks * perRound
    ensures Sum(Rounds(n, perRound)) == n && |Rounds(n, perRound)| <= chunks
    ensures forall i :: 0 <= i < |Rounds(n, perRound)| ==> 1 <= Rounds(n, perRound)[i] <= perRound
    ensures forall i :: 0 <= i < |Rounds(n, perRound)| ==> Rounds(n, perRound)[i] <= n
  {
    if n > perRound {
      assert chunks * perRound == (chunks - 1) * perRound + perRound;
      RoundsBounded(n - perRound, perRound, chunks - 1);
      var rest := Rounds(n - perRound, perRound);
      assert ([perRound] + rest)[1..] == rest;
    } else if n > 0 {
      assert [n][1..] == [];
    }
  }

  lemma {:induction false} NextRound(sizes: seq<nat>, n: nat, perRound: nat, size: nat)
    requires n > 0 && perRound > 0 && size == if perRound < n then perRound else n
    ensures sizes + Rounds(n, perRound) == sizes + [size] + Rounds(n - size, perRound)
  {
    assert [size] + Rounds(n - size, perRound) == Rounds(n, perRound);
  }

  /** At least one of `n` connections, and no more than `n / chunks` rounded up. */
  predicate SmallRound(size: nat, n: nat, chunks: nat) {
    size >= 1 && (size - 1) * chunks < n
  }

  lemma {:induction false} CeilSmall(n: nat, chunks: nat, size: nat)
    requires chunks > 0 && 1 <= size <= DivCeil(n, chunks)
    ensures (size - 1) * chunks < n
  {
    var q := DivCeil(n, chunks);
    assert q * chunks <= n + chunks - 1;
    assert (size - 1) * chunks <= (q - 1) * chunks == q * chunks - chunks;
  }

  lemma {:induction false} RoundsSmall(n: nat, duration: nat, size: nat)
    requires 1 <= size <= Max1(DivCeil(n, NumChunks(duration))) && size <= n
    ensures SmallRound(size, n, duration / 200_000_000)
  {
    var chunks := duration / 200_000_000;
    if chunks == 0 || size == 1 {
      assert (size - 1) * chunks == 0;
    } else {
      CeilSmall(n, chunks, size);
    }
  }

  lemma {:induction false} RoundsRight(n: nat, duration: nat)
    ensures var sizes := Rounds(n, Max1(DivCeil(n, NumChunks(duration))));
            && Sum(sizes) == n && |sizes| <= NumChunks(duration)
            && forall i :: 0 <= i < |sizes| ==> SmallRound(sizes[i], n, duration / 200_000_000)
  {
    var chunks := NumChunks(duration);
    var perRound := Max1(DivCeil(n, chunks));
    RoundsSuffice(n, chunks, perRound);
    RoundsBounded(n, perRound, chunks);
    var sizes := Rounds(n, perRound);
    forall i | 0 <= i < |sizes| ensures SmallRound(sizes[i], n, duration / 200_000_000) {
      RoundsSmall(n, duration, sizes[i]);
    }
  }

  lemma {:induction false} SleepsFit(sleeps: nat, duration: nat)
    requires sleeps < NumChunks(duration)
    ensures sleeps * chunkDuration <= duration
  {
    assert sleeps <= duration / chunkDuration;
  }

  /** The loop of `gradual_shutdown`. */
  method Drain<T>(connections: seq<T>, connectionsToDrain: nat)
    returns (signalled: seq<T>, sizes: seq<nat>, slept: nat)
    requires connectionsToDrain > 0
    ensures signalled == connections && sizes == Rounds(|connections|, connectionsToDrain)
    ensures slept == (if sizes == [] then 0 else (|sizes| - 1) * chunkDuration)
  {
    var handles := connections;
    signalled, sizes, slept := [], [], 0;
    while handles != []
      invariant signalled + handles == connections
      invariant sizes + Rounds(|handles|, connectionsToDrain) == Rounds(|connections|, connectionsToDrain)
      invariant slept == (if handles == [] && sizes != [] then |sizes| - 1 else |sizes|) * chunkDuration
      decreases |handles|
    {
      var toDrain := if connectionsToDrain < |handles| then connectionsToDrain else |handles|;
      NextRound(sizes, |handles|, connectionsToDrain, toDrain);
      signalled := signalled + handles[..toDrain];
      handles := handles[toDrain..];
      sizes := sizes + [toDrain];
      if handles != [] {
        slept := slept + chunkDuration;
      }
    }
    assert sizes + [] == sizes;
  }

  /**
    * `gradual_shutdown`: every connection is told to close exactly once, in the order they are held, in at
    * most as many rounds as there are chunks, and the sleeps between rounds stay within the duration. Round i tells
    * `sizes[i]` connections: at least one, and no more than their number divided by the number of chunks of 200
    * milliseconds, rounded up.
    */
  method GradualShutdown<T>(connections: seq<T>, duration: nat)
    returns (signalled: seq<T>, sizes: seq<nat>, slept: nat)
    ensures signalled == connections && Sum(sizes) == |connections|
    ensures forall i :: 0 <= i < |sizes| ==> SmallRound(sizes[i], |connections|, duration / 200_000_000)
    ensures |sizes| <= NumChunks(duration) && (connections != [] ==> |sizes| >= 1)
    ensures slept == (if sizes == [] then 0 else (|sizes| - 1) * chunkDuration) && slept <= duration
  {
    var numChunks := NumChunks(duration);
    RoundsRight(|connections|, duration);
    signalled, sizes, slept := Drain(connections, Max1(DivCeil(|connections|, numChunks)));
    if sizes != [] {
      SleepsFit(|sizes| - 1, duration);
    }
  }
}
