/** The deferred writer of deferedbuf.rs: bytes the underlying writer does not take are kept and sent first next
  time. */
module DeferredBufs {

  type byte = bv8

  datatype IoError = WouldBlock | Other(code: int)

  datatype Result<T> = Ok(value: T) | Err(error: IoError)

  // What a writer does with a buffer: it takes up to so many bytes from the front, or fails and takes none.
  datatype Outcome = Accept(most: nat) | Fail(error: IoError)

  // Any writer of this kind: its oracle decides each call, and may look at the bytes.
  class Writer {
    const oracle: (nat, seq<byte>) -> Outcome
    var calls: nat
    var delivered: seq<byte>

    constructor (oracle: (nat, seq<byte>) -> Outcome)
      ensures delivered == [] && calls == 0 && this.oracle == oracle
    {
      this.oracle := oracle;
      calls, delivered := 0, [];
    }

    method Write(b: seq<byte>) returns (r: Result<nat>)
      modifies this
      ensures calls == old(calls) + 1
      ensures match oracle(old(calls), b)
              case Accept(most) => r == Ok(if most < |b| then most else |b|)
                  && delivered == old(delivered) + b[..r.value]
              case Fail(e) => r == Err(e) && delivered == old(delivered)
    {
      var outcome := oracle(calls, b);
      calls := calls + 1;
      match outcome
      case Accept(most) =>
        var v := if most < |b| then most else |b|;
        delivered := delivered + b[..v];
        r := Ok(v);
      case Fail(e) =>
        r := Err(e);
    }
  }

  // What writing several slices in turn comes to, up to the first that is not taken in full: the bytes taken, the calls
  // made by then, and why it ended: everything taken, a short write, or an error.
  function Drain(oracle: (nat, seq<byte>) -> Outcome, calls: nat, slices: seq<seq<byte>>): (nat, nat, Result<bool>)
    decreases |slices|
  {
    if slices == [] then (0, calls, Ok(true))
    else if slices[0] == [] then Drain(oracle, calls, slices[1..])
    else match oracle(calls, slices[0])
      case Fail(e) => (0, calls + 1, Err(e))
      case Accept(most) =>
        if most < |slices[0]| then (most, calls + 1, Ok(false))
        else
          var (n, c, stop) := Drain(oracle, calls + 1, slices[1..]);
          (|slices[0]| + n, c, stop)
  }

  function Joined(slices: seq<seq<byte>>): seq<byte> {
    if slices == [] then [] else slices[0] + Joined(slices[1..])
  }

  // All is taken if and only if nothing stopped it.
  lemma {:induction false} DrainTakes(oracle: (nat, seq<byte>) -> Outcome, calls: nat, slices: seq<seq<byte>>)
    ensures var (n, c, stop) := Drain(oracle, calls, slices);
      n <= |Joined(slices)| && (stop == Ok(true) <==> n == |Joined(slices)|)
    decreases |slices|
  {
    if slices != [] {
      DrainTakes(oracle, calls, slices[1..]);
      DrainTakes(oracle, calls + 1, slices[1..]);
    }
  }

  // One slice of several.
  lemma DrainSlice(oracle: (nat, seq<byte>) -> Outcome, calls: nat, slices: seq<seq<byte>>, i: nat)
    requires i < |slices|
    ensures Drain(oracle, calls, slices[i..]) ==
      if slices[i] == [] then Drain(oracle, calls, slices[i + 1..])
      else match oracle(calls, slices[i])
        case Fail(e) => (0, calls + 1, Err(e))
        case Accept(most) =>
          if most < |slices[i]| then (most, calls + 1, Ok(false))
          else
            var (n, c, stop) := Drain(oracle, calls + 1, slices[i + 1..]);
            (|slices[i]| + n, c, stop)
  {
    assert slices[i..][0] == slices[i] && slices[i..][1..] == slices[i + 1..];
  }

  lemma DrainNone(oracle: (nat, seq<byte>) -> Outcome, calls: nat, slices: seq<seq<byte>>)
    ensures Drain(oracle, calls, slices[|slices|..]) == (0, calls, Ok(true))
  {
  }

  // A writer that takes whatever it is given leaves nothing behind, wherever the deque is split.
  lemma {:induction false} WillingWriter(oracle: (nat, seq<byte>) -> Outcome, calls: nat, slices: seq<seq<byte>>)
    requires forall c: nat, b :: oracle(c, b).Accept? && oracle(c, b).most >= |b|
    ensures Drain(oracle, calls, slices).0 == |Joined(slices)| && Drain(oracle, calls, slices).2 == Ok(true)
    decreases |slices|
  {
    if slices != [] {
      WillingWriter(oracle, calls, slices[1..]);
      WillingWriter(oracle, calls + 1, slices[1..]);
    }
  }

  class DeferredBuf {
    const w: Writer
    var buf: seq<byte>
    ghost var taken: seq<byte>     // all bytes ever passed to write

    // Nothing is lost, doubled or reordered.
    ghost predicate Valid()
      reads this, w
    {
      w.delivered + buf == taken
    }

    constructor (w: Writer)
      requires w.delivered == []
      ensures Valid() && this.w == w && buf == [] && taken == []
    {
      this.w, buf, taken := w, [], [];
    }

    // The two slices the deque happens to be made of.
    ghost function Slices(cut: nat): seq<seq<byte>>
      requires cut <= |buf|
      reads this
    {
      [buf[..cut], buf[cut..]]
    }

    // The loop that write and flush have in common: the slices are written until one is not taken in full.  dct bytes
    // were taken; stop says why it ended.
    method WriteBack(cut: nat) returns (dct: nat, stop: Result<bool>)
      requires cut <= |buf|
      modifies w
      ensures (dct, w.calls, stop) == Drain(w.oracle, old(w.calls), Slices(cut))
      ensures dct <= |buf| && w.delivered == old(w.delivered) + buf[..dct] && (stop == Ok(true) <==> dct == |buf|)
    {
      hide Drain;
      var slices := [buf[..cut], buf[cut..]];
      ghost var all := Drain(w.oracle, w.calls, slices);
      TwoSlices(cut);
      assert slices[0..] == slices && buf[..0] == [];
      dct := 0;
      var i := 0;
      while i < 2
        invariant 0 <= i <= 2 && dct == (if i == 0 then 0 else if i == 1 then cut else |buf|)
        invariant w.delivered == old(w.delivered) + buf[..dct]
        invariant var rest := Drain(w.oracle, w.calls, slices[i..]); all == (dct + rest.0, rest.1, rest.2)
      {
        DrainSlice(w.oracle, w.calls, slices, i);
        var b := slices[i];
        assert buf[dct..][..|b|] == b;
        i := i + 1;
        if |b| == 0 { continue; }
        var r := w.Write(b);
        match r
        case Ok(v) =>
          assert buf[..dct] + b[..v] == buf[..dct + v];
          dct := dct + v;
          if v != |b| { return dct, Ok(false); }
        case Err(e) =>
          return dct, Err(e);
      }
      DrainNone(w.oracle, w.calls, slices);
      stop := Ok(true);
    }

    lemma TwoSlices(cut: nat)
      requires cut <= |buf|
      ensures var (n, c, stop) := Drain(w.oracle, w.calls, Slices(cut));
        n <= |buf|
        && (stop == Ok(true) <==> n == |buf|)
    {
      DrainTakes(w.oracle, w.calls, Slices(cut));
      assert Slices(cut)[1..] == [buf[cut..]] && [buf[cut..]][1..] == [];
      assert Joined(Slices(cut)) == buf[..cut] + (buf[cut..] + Joined([]));
    }

    // write: first the backlog, then the input as far as it is taken; what is left is kept, whatever is returned.
    method Write(inb: seq<byte>, cut: nat) returns (r: Result<nat>)
      requires Valid() && cut <= |buf|
      modifies this`buf, this`taken, w
      ensures Valid() && taken == old(taken) + inb
      ensures var (n, c, stop) := Drain(w.oracle, old(w.calls), old(Slices(cut)));
        if stop != Ok(true) then
          n <= |old(buf)| && buf == old(buf)[n..] + inb && w.calls == c
              && r == if stop.Ok? then Ok(|inb|) else Err(stop.error)
        else match w.oracle(c, inb)
          case Accept(most) => buf == inb[if most < |inb| then most else |inb|..] && w.calls == c + 1 && r == Ok(|inb|)
          case Fail(e) => buf == inb && w.calls == c + 1 && r == Err(e)
    {
      hide Drain;
      TwoSlices(cut);
      var dct, stop := WriteBack(cut);
      assert buf == buf[..dct] + buf[dct..];
      taken := taken + inb;
      if stop != Ok(true) {
        buf := buf[dct..] + inb;
        return if stop.Ok? then Ok(|inb|) else Err(stop.error);
      }
      buf := buf[dct..];
      var answer := w.Write(inb);
      match answer
      case Ok(v) =>
        assert inb == inb[..v] + inb[v..];
        buf := buf + inb[v..];
        r := Ok(|inb|);
      case Err(e) =>
        buf := buf + inb;
        r := Err(e);
    }

    // flush: the backlog as far as it is taken; success means that nothing is left, and failure that something is.
    method Flush(cut: nat) returns (r: Result<()>)
      requires Valid() && cut <= |buf|
      modifies this`buf, w
      ensures Valid() && taken == old(taken)
      ensures var (n, c, stop) := Drain(w.oracle, old(w.calls), old(Slices(cut)));
        n <= |old(buf)| && buf == old(buf)[n..] && w.calls == c
        && r == match stop case Ok(all) => (if all then Ok(()) else Err(WouldBlock)) case Err(e) => Err(e)
      ensures r.Ok? <==> buf == []
    {
      TwoSlices(cut);
      var dct, stop := WriteBack(cut);
      assert buf == buf[..dct] + buf[dct..];
      buf := buf[dct..];
      match stop
      case Ok(all) => r := if all then Ok(()) else Err(WouldBlock);
      case Err(e) => r := Err(e);
    }
  }
}
