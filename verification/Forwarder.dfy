/** How the forwarder gives out stream ids: the first free one over a wrapping
    counter. */
module Forwarder {
  import opened Prelude

  const IDS: nat := 0x1_0000

  /** The id the counter points at `k` allocations from now. */
  function Candidate(counter: u32, k: nat): u16 {
    (counter + k) % IDS
  }

  function CounterAfter(counter: u32, k: nat): u32 {
    (counter + k + 1) % 0x1_0000_0000
  }

  /** The first free id from the counter on is `k` ids away. */
  predicate FirstFree(streams: set<u16>, counter: u32, k: nat) {
    && k < IDS && Candidate(counter, k) !in streams
    && forall j :: 0 <= j < k ==> Candidate(counter, j) in streams
  }

  lemma FirstFreeIsOne(streams: set<u16>, counter: u32, k: nat, j: nat)
    requires FirstFree(streams, counter, k) && FirstFree(streams, counter, j)
    ensures k == j
  {
  }

  class Registry {
    var streams: set<u16>   // ids with a handler
    var counter: u32

    constructor ()
      ensures streams == {} && counter == 1
    {
      streams, counter := {}, 1;
    }

    /** Take the first free id at or after the counter.  With every id in use the
        source's loop goes round for ever; here it ends after one round. */
    method Register() returns (id: Option<u16>, ghost skipped: nat)
      modifies this
      ensures id.None? <==> forall k: u16 :: k in old(streams)
      ensures id.None? ==> streams == old(streams) && counter == old(counter)
      ensures id.Some? ==>
                && FirstFree(old(streams), old(counter), skipped) && id.value == Candidate(old(counter), skipped)
                && streams == old(streams) + {id.value} && counter == CounterAfter(old(counter), skipped)
    {
      var tried, next := 0, counter;
      skipped := 0;
      while tried < IDS
        invariant tried <= IDS && skipped == tried && streams == old(streams) && counter == old(counter)
        invariant next == (counter + tried) % 0x1_0000_0000
        invariant forall k :: 0 <= k < tried ==> Candidate(old(counter), k) in old(streams)
      {
        var cand := next % IDS;
        LowHalf(counter, tried);
        CounterStep(counter, tried);
        next := (next + 1) % 0x1_0000_0000;
        if cand !in streams {
          streams, counter := streams + {cand}, next;
          return Some(cand), skipped;
        }
        tried, skipped := tried + 1, skipped + 1;
      }
      forall k: u16 ensures k in old(streams) {
        RoundTheIds(old(counter), k);
        assert Candidate(old(counter), (k - old(counter)) % IDS) == k;
      }
      return None, skipped;
    }

    method Remove(id: u16)
      modifies this`streams
      ensures streams == old(streams) - {id}
    {
      streams := streams - {id};
    }
  }

  /** Counting on from `counter`, a free id comes up within one round. */
  lemma RoundTheIds(counter: u32, free: u16)
    ensures var ahead := (free - counter) % IDS;
            0 <= ahead < IDS && (counter + ahead) % IDS == free
  {
  }

  lemma LowHalf(counter: u32, k: nat)
    ensures (counter + k) % 0x1_0000_0000 % IDS == (counter + k) % IDS
  {
    var n: int := counter + k;
    assert n == 0x1_0000_0000 * (n / 0x1_0000_0000) + n % 0x1_0000_0000;
    assert 0x1_0000_0000 * (n / 0x1_0000_0000) == IDS * (IDS * (n / 0x1_0000_0000));
    ModAddMultiple(n % 0x1_0000_0000, IDS * (n / 0x1_0000_0000));
  }

  lemma ModAddMultiple(a: int, q: int)
    ensures (a + IDS * q) % IDS == a % IDS
  {
  }

  lemma CounterStep(counter: u32, k: nat)
    ensures ((counter + k) % 0x1_0000_0000 + 1) % 0x1_0000_0000 == (counter + k + 1) % 0x1_0000_0000
  {
  }
}
