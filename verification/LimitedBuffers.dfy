/** The capped buffer that collects a plugin's output. */
module LimitedBuffers {
  import Backoff

  function Concat(writes: seq<seq<int>>): seq<int> {
    if writes == [] then [] else Concat(writes[..|writes| - 1]) + writes[|writes| - 1]
  }

  /** All that was written, in the order of the writes. */
  lemma {:induction false} ConcatAdds(a: seq<seq<int>>, b: seq<seq<int>>)
    ensures Concat(a + b) == Concat(a) + Concat(b)
    decreases |b|
  {
    if b == [] {
      assert a + b == a;
    } else {
      var front, last := b[..|b| - 1], b[|b| - 1];
      ConcatAdds(a, front);
      assert (a + b)[..|a + b| - 1] == a + front && (a + b)[|a + b| - 1] == last;
      assert (Concat(a) + Concat(front)) + last == Concat(a) + (Concat(front) + last);
    }
  }

  lemma ConcatOne(p: seq<int>)
    ensures Concat([p]) == p
  {
    assert [p][..0] == [];
  }

  /** The first n bytes, or all of them if there are fewer. */
  function Take(s: seq<int>, n: nat): seq<int> {
    s[..Backoff.Min(n, |s|)]
  }

  /** Some write was empty and came when the buffer was already full. */
  predicate EmptyWhenFull(writes: seq<seq<int>>, limit: nat) {
    exists k :: 0 <= k < |writes| && writes[k] == [] && |Concat(writes[..k])| >= limit
  }

  /** What one write leaves. */
  function Wrote(buf: seq<int>, exceeded: bool, limit: nat, p: seq<int>): (seq<int>, bool) {
    var room: nat := if |buf| < limit then limit - |buf| else 0;
    (buf + Take(p, room), exceeded || room == 0 || |p| > room)
  }

  class LimitedBuffer {
    var buf: seq<int>
    const limit: nat
    var exceeded: bool

    constructor (limit: int)
      ensures buf == [] && !exceeded
      ensures this.limit == if limit <= 0 then 65536 else limit
    {
      this.limit := if limit <= 0 then 65536 else limit;
      buf, exceeded := [], false;
    }

    /** Claims to have taken all of p, and never fails. */
    method Write(p: seq<int>) returns (n: nat)
      modifies this
      ensures n == |p|
      ensures (buf, exceeded) == Wrote(old(buf), old(exceeded), limit, p)
      ensures if |old(buf)| >= limit then buf == old(buf) && exceeded
              else if |old(buf) + p| > limit then buf == (old(buf) + p)[..limit] && exceeded
              else buf == old(buf) + p && exceeded == old(exceeded)
    {
      var remaining := limit - |buf|;
      if remaining <= 0 {
        assert buf + Take(p, 0) == buf;
        exceeded := true;
        return |p|;
      }
      if |p| > remaining {
        buf := buf + p[..remaining];
        exceeded := true;
        return |p|;
      }
      assert Take(p, remaining) == p;
      buf := buf + p;
      return |p|;
    }
  }

  lemma TakeAppend(a: seq<int>, b: seq<int>, limit: nat)
    ensures Take(a, limit) + Take(b, limit - |Take(a, limit)|) == Take(a + b, limit)
  {
  }

  lemma EmptyWhenFullStep(writes: seq<seq<int>>, k: nat, limit: nat)
    requires k < |writes|
    ensures EmptyWhenFull(writes[..k + 1], limit) <==>
            EmptyWhenFull(writes[..k], limit) || (writes[k] == [] && |Concat(writes[..k])| >= limit)
  {
    var ws := writes[..k + 1];
    assert forall j :: 0 <= j <= k ==> ws[..j] == writes[..j];
    assert forall j :: 0 <= j < k ==> writes[..k][..j] == writes[..j];
    if EmptyWhenFull(writes[..k], limit) {
      var j :| 0 <= j < k && writes[..k][j] == [] && |Concat(writes[..k][..j])| >= limit;
      assert ws[j] == [] && |Concat(ws[..j])| >= limit;
    }
    if writes[k] == [] && |Concat(writes[..k])| >= limit {
      assert ws[k] == [] && |Concat(ws[..k])| >= limit;
    }
    if EmptyWhenFull(ws, limit) {
      var j :| 0 <= j < |ws| && ws[j] == [] && |Concat(ws[..j])| >= limit;
      if j < k {
        assert writes[..k][j] == [] && |Concat(writes[..k][..j])| >= limit;
      }
    }
  }

  /** A new buffer after a sequence of writes, one call of Write each. */
  function AfterWrites(writes: seq<seq<int>>, limit: nat): (seq<int>, bool) {
    if writes == [] then ([], false)
    else
      var (buf, exceeded) := AfterWrites(writes[..|writes| - 1], limit);
      Wrote(buf, exceeded, limit, writes[|writes| - 1])
  }

  /**
   * After any sequence of writes the buffer holds exactly the first `limit` bytes of all that was written,
   * and has noticed exactly if there was more, or an empty write found it full.
   */
  lemma {:induction false} BufferHoldsPrefix(writes: seq<seq<int>>, limit: nat)
    requires limit > 0
    ensures var (buf, exceeded) := AfterWrites(writes, limit);
            && buf == Concat(writes)[..if |Concat(writes)| > limit then limit else |Concat(writes)|]
            && (exceeded <==> |Concat(writes)| > limit || EmptyWhenFull(writes, limit))
  {
    if writes != [] {
      var k := |writes| - 1;
      BufferHoldsPrefix(writes[..k], limit);
      EmptyWhenFullStep(writes, k, limit);
      TakeAppend(Concat(writes[..k]), writes[k], limit);
      assert writes[..k + 1] == writes;
    }
  }
}
