/** Nibble slices (nib/src/lib.rs): bytes with perhaps the first and the last nibble left out, standing for a sequence
  of nibbles, high nibble of a byte first. */
module Nibbles {
  import opened Options

  type byte = b: int | 0 <= b < 256

  datatype Exclude = First | Last | None_ | Both {
    predicate IsFirstExcluded() {
      First? || Both?
    }

    predicate IsLastExcluded() {
      Last? || Both?
    }

    function LenExcluded(): nat {
      match this
      case Both => 2
      case First => 1
      case Last => 1
      case None_ => 0
    }

    static function FromExcludes(first: bool, last: bool): Exclude {
      if first && last then Both else if last then Last else if first then First else None_
    }
  }

  // Nibble i of some bytes.
  function Nib(inner: seq<byte>, i: nat): int
    requires i < 2 * |inner|
  {
    if i % 2 == 0 then inner[i / 2] / 16 else inner[i / 2] % 16
  }

  function AllNibs(inner: seq<byte>): (r: seq<int>)
    ensures |r| == 2 * |inner| && forall i | 0 <= i < |r| :: r[i] == Nib(inner, i)
  {
    seq(2 * |inner|, i requires 0 <= i < 2 * |inner| => Nib(inner, i))
  }

  lemma NibOfPart(inner: seq<byte>, a: nat, b: nat, i: nat)
    requires a <= b <= |inner| && i < 2 * (b - a)
    ensures Nib(inner[a..b], i) == Nib(inner, 2 * a + i)
  {
    assert (2 * a + i) / 2 == a + i / 2 && (2 * a + i) % 2 == i % 2;
  }

  lemma NibOfByte(inner: seq<byte>, k: nat)
    requires k < |inner|
    ensures Nib(inner, 2 * k) == inner[k] / 16 && Nib(inner, 2 * k + 1) == inner[k] % 16
  {
  }

  datatype NibSlice = NibSlice(exclude: Exclude, inner: seq<byte>) {

    // What from_bytes_exclude asserts.
    predicate Valid() {
      (|inner| == 0 ==> exclude == None_) && (|inner| == 1 ==> exclude != Both)
    }

    function Low(): nat {
      if exclude.IsFirstExcluded() then 1 else 0
    }

    function High(): int {
      2 * |inner| - if exclude.IsLastExcluded() then 1 else 0
    }

    // The sequence of nibbles a slice stands for.
    function Nibs(): seq<int>
      requires Valid()
    {
      AllNibs(inner)[Low()..High()]
    }

    function Len(): (r: nat)
      requires Valid()
      ensures r == |Nibs()|
    {
      2 * |inner| - exclude.LenExcluded()
    }

    lemma At(i: nat)
      requires Valid() && i < |Nibs()|
      ensures Low() + i < 2 * |inner| && Nibs()[i] == Nib(inner, Low() + i)
    {
    }

    // get of a single offset
    function GetOne(offs: nat): (r: Option<int>)
      requires Valid()
      ensures r == if offs < |Nibs()| then Some(Nibs()[offs]) else None
    {
      if offs >= Len() then None
      else
        var (idx, isLow) := B(exclude, offs);
        At(offs); NibOfByte(inner, idx);
        Some(if isLow then inner[idx] % 16 else inner[idx] / 16)
    }

    // try_nibble: the only nibble, if there is just one.
    function TryNibble(): (r: Option<int>)
      requires Valid()
      ensures r == if |Nibs()| == 1 then Some(Nibs()[0]) else None
    {
      if Len() != 1 then None
      else
        At(0); NibOfByte(inner, 0);
        match exclude
        case First => Some(inner[0] % 16)
        case Last => Some(inner[0] / 16)
        case _ => assert false; None
    }

    // byte_parts: a nibble in front if the first byte is cut, the whole bytes, a nibble at the end if the last is.
    function ByteParts(): (r: (Option<int>, seq<byte>, Option<int>))
      requires Valid()
      ensures Nibs() == Loose(r.0) + AllNibs(r.1) + Loose(r.2)
      ensures (r.0.Some? <==> exclude.IsFirstExcluded()) && (r.2.Some? <==> exclude.IsLastExcluded())
    {
      var (rem, first) := if exclude.IsFirstExcluded() then (inner[1..], Some(inner[0] % 16)) else (inner, None);
      var (rem2, last) := if exclude.IsLastExcluded() then (rem[..|rem| - 1], Some(rem[|rem| - 1] / 16))
          else (rem, None);
      BytePartsAre(this, rem2, first, last);
      (first, rem2, last)
    }
  }

  function Loose(n: Option<int>): seq<int> {
    match n
    case None => []
    case Some(v) => [v]
  }

  // b: the byte an offset falls into, and whether it is the low nibble there.
  function B(exclude: Exclude, offs: nat): (r: (nat, bool))
    ensures 2 * r.0 + (if r.1 then 1 else 0) == offs + if exclude.IsFirstExcluded() then 1 else 0
  {
    var index := offs + if exclude.IsFirstExcluded() then 1 else 0;
    (index / 2, index % 2 == 1)
  }

  lemma BytePartsAre(s: NibSlice, mid: seq<byte>, first: Option<int>, last: Option<int>)
    requires s.Valid()
    requires mid == s.inner[s.Low()..(if s.exclude.IsLastExcluded() then |s.inner| - 1 else |s.inner|)]
    requires first == if s.exclude.IsFirstExcluded() then Some(s.inner[0] % 16) else None
    requires last == if s.exclude.IsLastExcluded() then Some(s.inner[|s.inner| - 1] / 16) else None
    ensures s.Nibs() == Loose(first) + AllNibs(mid) + Loose(last)
  {
    hide AllNibs, Nib;
    var n := |s.inner|;
    if n > 0 {
      NibOfByte(s.inner, 0);
      NibOfByte(s.inner, n - 1);
    }
    var low, high := s.Low(), if s.exclude.IsLastExcluded() then n - 1 else n;
    forall i: nat | i < |AllNibs(mid)| ensures AllNibs(mid)[i] == AllNibs(s.inner)[2 * low + i] {
      NibOfPart(s.inner, low, high, i);
    }
    assert AllNibs(mid) == AllNibs(s.inner)[2 * low..2 * high];
    assert Loose(first) == AllNibs(s.inner)[s.Low()..2 * low];
    assert Loose(last) == AllNibs(s.inner)[2 * high..s.High()];
    Pieces(AllNibs(s.inner), s.Low(), 2 * low, 2 * high, s.High());
  }

  lemma Pieces(s: seq<int>, a: int, b: int, c: int, d: int)
    requires 0 <= a <= b <= c <= d <= |s|
    ensures s[a..d] == s[a..b] + s[b..c] + s[c..d]
  {
  }

  // ---- ranges ----

  // Outside is what get answers for a range out of bounds; Panics is the failing assertion of from_bytes_exclude.
  datatype RangeResult = Part(slice: NibSlice) | Outside | Panics

  function Cut(s: NibSlice, start: nat, end: nat): NibSlice
    requires s.Valid() && start <= end <= s.Len()
  {
    var (bStart, excludeFirst) := B(s.exclude, start);
    var (bEnd, endIsLow) := B(s.exclude, end + 1);
    NibSlice(Exclude.FromExcludes(excludeFirst, !endIsLow), s.inner[bStart..bEnd])
  }

  // get of a range start..end
  function GetRange(s: NibSlice, start: nat, end: nat): RangeResult
    requires s.Valid()
  {
    if start > end then Outside
    else if end > s.Len() then Outside
    else if Cut(s, start, end).Valid() then Part(Cut(s, start, end)) else Panics
  }

  // A range in bounds gives exactly the subsequence, except that an empty one inside a byte panics.
  lemma RangeMeans(s: NibSlice, start: nat, end: nat)
    requires s.Valid()
    ensures GetRange(s, start, end).Outside? <==> !(start <= end <= |s.Nibs()|)
    ensures GetRange(s, start, end).Panics? <==> start == end <= |s.Nibs()| && (start + s.Low()) % 2 == 1
    ensures GetRange(s, start, end).Part? ==>
      GetRange(s, start, end).slice.Valid() && GetRange(s, start, end).slice.Nibs() == s.Nibs()[start..end]
  {
    hide AllNibs, Nib, B;
    if start <= end <= s.Len() {
      CutValid(s, start, end);
      if Cut(s, start, end).Valid() { CutNibs(s, start, end); }
    }
  }

  // The kinds of ranges a slice can be indexed with.
  datatype Index =
    | Range(start: nat, end: nat) | RangeFrom(start: nat) | RangeTo(end: nat) | RangeFull
    | RangeInclusive(start: nat, end: nat) | RangeToInclusive(end: nat)
  {
    // Whether it contains i.
    predicate Contains(i: nat) {
      match this
      case Range(start, end) => start <= i < end
      case RangeFrom(start) => start <= i
      case RangeTo(end) => i < end
      case RangeFull => true
      case RangeInclusive(start, end) => start <= i <= end
      case RangeToInclusive(end) => i <= end
    }

    function From(): nat {
      if Range? || RangeFrom? || RangeInclusive? then start else 0
    }

    // One behind the last position, in a slice of n nibbles.
    function Behind(n: nat): nat {
      if Range? || RangeTo? then end else if RangeInclusive? || RangeToInclusive? then end + 1 else n
    }
  }

  // get of any of them
  function GetIndex(s: NibSlice, r: Index): RangeResult
    requires s.Valid()
  {
    match r
    case Range(start, end) => GetRange(s, start, end)
    case RangeFrom(start) => GetRange(s, start, s.Len())
    case RangeTo(end) => GetRange(s, 0, end)
    case RangeFull => Part(s)
    case RangeInclusive(start, end) => GetRange(s, start, end + 1)
    case RangeToInclusive(end) => GetRange(s, 0, end + 1)
  }

  // All of them give the nibbles at the positions they contain, or nothing if they reach outside the slice; only the
  // full range never panics.
  lemma IndexMeans(s: NibSlice, r: Index)
    requires s.Valid()
    ensures forall i: nat | i < |s.Nibs()| :: r.Contains(i) <==> r.From() <= i < r.Behind(|s.Nibs()|)
    ensures GetIndex(s, r).Outside? <==> !(r.From() <= r.Behind(|s.Nibs()|) <= |s.Nibs()|)
    ensures GetIndex(s, r).Panics? <==>
      r.From() == r.Behind(|s.Nibs()|) <= |s.Nibs()| && (r.From() + s.Low()) % 2 == 1 && !r.RangeFull?
    ensures GetIndex(s, r).Part? ==>
      && GetIndex(s, r).slice.Valid()
      && GetIndex(s, r).slice.Nibs() == s.Nibs()[r.From()..r.Behind(|s.Nibs()|)]
  {
    hide AllNibs, Nib, B, GetRange, NibSlice.Nibs;
    RangeMeans(s, r.From(), r.Behind(s.Len()));
  }

  lemma CutValid(s: NibSlice, start: nat, end: nat)
    requires s.Valid() && start <= end <= s.Len()
    ensures Cut(s, start, end).Valid() <==> !(start == end && (start + s.Low()) % 2 == 1)
    ensures Cut(s, start, end).Low() + 2 * B(s.exclude, start).0 == start + s.Low()
    ensures B(s.exclude, start).0 <= B(s.exclude, end + 1).0 <= |s.inner|
    ensures Cut(s, start, end).inner == s.inner[B(s.exclude, start).0..B(s.exclude, end + 1).0]
    ensures Cut(s, start, end).Valid() ==> Cut(s, start, end).Len() == end - start
  {
    hide AllNibs, Nib;
  }

  lemma CutNibs(s: NibSlice, start: nat, end: nat)
    requires s.Valid() && start <= end <= s.Len() && Cut(s, start, end).Valid()
    ensures Cut(s, start, end).Nibs() == s.Nibs()[start..end]
  {
    hide AllNibs, Nib, B, Cut;
    CutValid(s, start, end);
    var part, a, b := Cut(s, start, end), B(s.exclude, start).0, B(s.exclude, end + 1).0;
    forall i: nat | i < end - start ensures part.Nibs()[i] == s.Nibs()[start..end][i] {
      part.At(i);
      s.At(start + i);
      NibOfPart(s.inner, a, b, part.Low() + i);
    }
  }

  // A range of a range is one range, its offsets added.
  lemma RangeOfRange(s: NibSlice, a: nat, b: nat, c: nat, d: nat)
    requires s.Valid() && GetRange(s, a, b).Part? && c <= d <= b - a
    ensures GetRange(GetRange(s, a, b).slice, c, d) == GetRange(s, a + c, a + d)
  {
    hide AllNibs, Nib, Cut, NibSlice.Nibs, B;
    CutValid(s, a, b);
    CutOfCut(s, a, b, c, d);
  }

  lemma CutOfCut(s: NibSlice, a: nat, b: nat, c: nat, d: nat)
    requires s.Valid() && a <= b <= s.Len() && Cut(s, a, b).Valid() && c <= d <= b - a
    ensures Cut(s, a, b).Len() == b - a && Cut(Cut(s, a, b), c, d) == Cut(s, a + c, a + d)
  {
    hide AllNibs, Nib, NibSlice.Nibs, B, Cut, Exclude.FromExcludes, Exclude.LenExcluded, NibSlice.High,
        NibSlice.Low;
    CutValid(s, a, b);
    var t := Cut(s, a, b);
    var u, v := Cut(t, c, d), Cut(s, a + c, a + d);
    FirstHalf(s, a, b);
    SameHalf(s.exclude, t.exclude, a, c);
    SameHalf(s.exclude, t.exclude, a, d + 1);
    assert u.exclude == v.exclude by {
      CutIs(t, c, d);
      CutIs(s, a + c, a + d);
    }
    assert u.inner == v.inner by {
      CutInner(t, c, d);
      CutInner(s, a + c, a + d);
      SliceOfSlice(s.inner, B(s.exclude, a).0, B(s.exclude, b + 1).0, B(t.exclude, c).0, B(t.exclude, d + 1).0);
    }
  }

  lemma CutInner(s: NibSlice, start: nat, end: nat)
    requires s.Valid() && start <= end <= s.Len()
    ensures B(s.exclude, start).0 <= B(s.exclude, end + 1).0 <= |s.inner|
    ensures Cut(s, start, end).inner == s.inner[B(s.exclude, start).0..B(s.exclude, end + 1).0]
  {
    hide AllNibs, Nib;
  }

  lemma CutIs(s: NibSlice, start: nat, end: nat)
    requires s.Valid() && start <= end <= s.Len()
    ensures Cut(s, start, end).exclude == Exclude.FromExcludes(B(s.exclude, start).1, !B(s.exclude, end + 1).1)
  {
  }

  lemma FirstHalf(s: NibSlice, start: nat, end: nat)
    requires s.Valid() && start <= end <= s.Len()
    ensures Cut(s, start, end).exclude.IsFirstExcluded() == B(s.exclude, start).1
  {
  }

  lemma SliceOfSlice(s: seq<byte>, k: nat, e: nat, p: nat, q: nat)
    requires k <= e <= |s| && p <= q <= e - k
    ensures s[k..e][p..q] == s[k + p..k + q]
  {
    var x, y := s[k..e][p..q], s[k + p..k + q];
    forall i | 0 <= i < q - p ensures x[i] == y[i] {
      assert x[i] == s[k..e][p + i] == s[k + (p + i)];
    }
  }

  lemma SameHalf(ex: Exclude, ex': Exclude, a: nat, c: nat)
    requires ex'.IsFirstExcluded() == B(ex, a).1
    ensures B(ex, a + c) == (B(ex, a).0 + B(ex', c).0, B(ex', c).1)
  {
  }

  // ---- iteration and equality ----

  class Iter {
    var inner: NibSlice

    constructor (s: NibSlice)
      requires s.Valid()
      ensures inner == s
    {
      inner := s;
    }

    // next: the first nibble, and the slice without it.
    method Next() returns (v: Option<int>)
      requires inner.Valid()
      modifies this
      ensures inner.Valid()
      ensures v == if old(inner.Nibs()) == [] then None else Some(old(inner.Nibs())[0])
      ensures inner.Nibs() == if old(inner.Nibs()) == [] then [] else old(inner.Nibs())[1..]
    {
      hide AllNibs, Nib;
      if inner.Len() == 0 { return None; }
      ghost var before := inner;
      inner.At(0);
      NibOfByte(inner.inner, 0);
      if inner.exclude.IsFirstExcluded() {
        v := Some(inner.inner[0] % 16);
        inner := inner.(inner := inner.inner[1..],
            exclude := Exclude.FromExcludes(false, inner.exclude.IsLastExcluded()));
      } else {
        v := Some(inner.inner[0] / 16);
        inner := inner.(exclude := Exclude.FromExcludes(true, inner.exclude.IsLastExcluded()));
      }
      if |inner.inner| == 0 { inner := inner.(exclude := None_); }
      if |inner.inner| == 1 && inner.exclude == Both { inner := NibSlice(None_, []); }
      if inner.inner != [] { NextMeans(before, inner, if before.exclude.IsFirstExcluded() then 1 else 0); }
    }
  }

  // The slice without its first nibble; k bytes have been left behind.
  lemma NextMeans(s: NibSlice, t: NibSlice, k: nat)
    requires s.Valid() && t.Valid() && s.Len() > 0 && t.Len() == s.Len() - 1
    requires k <= |s.inner| && t.inner == s.inner[k..] && 2 * k + t.Low() == s.Low() + 1
    ensures t.Nibs() == s.Nibs()[1..]
  {
    hide AllNibs, Nib;
    forall i: nat | i < t.Len() ensures t.Nibs()[i] == s.Nibs()[1..][i] {
      s.At(1 + i);
      t.At(i);
      assert s.inner[k..] == s.inner[k..|s.inner|];
      NibOfPart(s.inner, k, |s.inner|, t.Low() + i);
    }
  }

  // eq: the nibbles are compared one by one.
  method Equal(s: NibSlice, t: NibSlice) returns (same: bool)
    requires s.Valid() && t.Valid()
    ensures same <==> s.Nibs() == t.Nibs()
  {
    hide AllNibs, NibSlice.Nibs;
    var i1 := new Iter(s);
    var i2 := new Iter(t);
    ghost var x, y := s.Nibs(), t.Nibs();
    ghost var n := 0;
    assert x[0..] == x && y[0..] == y;
    while true
      invariant i1 != i2 && i1.inner.Valid() && i2.inner.Valid()
      invariant n <= |x| && n <= |y| && x[..n] == y[..n]
      invariant i1.inner.Nibs() == x[n..] && i2.inner.Nibs() == y[n..]
      decreases |x| - n
    {
      var v1 := i1.Next();
      var v2 := i2.Next();
      if v1 != v2 {
        Differ(x, y, n);
        return false;
      }
      if v1.None? {
        assert x == x[..n] && y == y[..n];
        return true;
      }
      Alike(x, y, n);
      n := n + 1;
    }
  }

  lemma Differ(x: seq<int>, y: seq<int>, n: nat)
    requires n <= |x| && n <= |y|
    ensures (n < |x| && (n == |y| || x[n] != y[n])) || (n == |x| && n < |y|) ==> x != y
  {
  }

  lemma Alike(x: seq<int>, y: seq<int>, n: nat)
    requires n < |x| && n < |y| && x[..n] == y[..n] && x[n..][0] == y[n..][0]
    ensures x[..n + 1] == y[..n + 1] && x[n..][1..] == x[n + 1..] && y[n..][1..] == y[n + 1..]
  {
    assert x[..n + 1] == x[..n] + [x[n]] && y[..n + 1] == y[..n] + [y[n]];
  }
}
