/** The in-place domain name codec of Dripper.c: ".www.example" and the length-prefixed form of section 3.1 of RFC 1035
  take the same room, so each is rewritten into the other where it stands. */
module DnsNames {

  const DOT := 46
  const NUL := 0

  // A character as an unsigned byte; those concerned here are below 128, where signedness does not matter.
  type Text = seq<nat>

  // A label: not empty, at most 63 bytes, without a dot or NUL.
  ghost predicate IsLabel(l: Text) {
    1 <= |l| <= 63 && forall c <- l :: c != DOT && c != NUL
  }

  ghost predicate AllLabels(labels: seq<Text>) {
    forall l <- labels :: IsLabel(l)
  }

  // ".www.example"
  function Dotted(labels: seq<Text>): Text {
    if labels == [] then [] else [DOT] + labels[0] + Dotted(labels[1..])
  }

  // "\\003www\\007example"
  function Prefixed(labels: seq<Text>): Text {
    if labels == [] then [] else [|labels[0]|] + labels[0] + Prefixed(labels[1..])
  }

  lemma {:induction false} SameRoom(labels: seq<Text>)
    ensures |Dotted(labels)| == |Prefixed(labels)|
  {
    if labels != [] { SameRoom(labels[1..]); }
  }

  lemma {:induction false} NoNul(labels: seq<Text>)
    requires AllLabels(labels)
    ensures NUL !in Dotted(labels) && NUL !in Prefixed(labels)
  {
    if labels != [] {
      assert labels[0] in labels;
      forall l | l in labels[1..] ensures IsLabel(l) { assert l in labels; }
      NoNul(labels[1..]);
    }
  }

  lemma {:induction false} PrefixedConcat(a: seq<Text>, b: seq<Text>)
    ensures Prefixed(a + b) == Prefixed(a) + Prefixed(b)
    ensures Dotted(a + b) == Dotted(a) + Dotted(b)
  {
    if a == [] {
      assert a + b == b;
    } else {
      assert (a + b)[1..] == a[1..] + b;
      PrefixedConcat(a[1..], b);
    }
  }

  lemma OneLabel(l: Text)
    ensures Prefixed([l]) == [|l|] + l && Dotted([l]) == [DOT] + l
  {
    var one := [l];
    var none: seq<Text> := [];
    assert one[1..] == none;
    assert Prefixed(none) == [] && Dotted(none) == [];
  }

  // The first n labels in one form, the rest in the other, up to the NUL.
  function Mixed(labels: seq<Text>, n: nat, prefixedFirst: bool): Text
    requires n <= |labels|
  {
    Front(labels, n, prefixedFirst) + Back(labels, n, prefixedFirst)
  }

  function Front(labels: seq<Text>, n: nat, prefixedFirst: bool): Text
    requires n <= |labels|
  {
    if prefixedFirst then Prefixed(labels[..n]) else Dotted(labels[..n])
  }

  function Back(labels: seq<Text>, n: nat, prefixedFirst: bool): Text
    requires n <= |labels|
  {
    (if prefixedFirst then Dotted(labels[n..]) else Prefixed(labels[n..])) + [NUL]
  }

  lemma FrontGrows(labels: seq<Text>, n: nat, prefixedFirst: bool)
    requires n < |labels|
    ensures Front(labels, n + 1, prefixedFirst)
         == Front(labels, n, prefixedFirst) + [if prefixedFirst then |labels[n]| else DOT] + labels[n]
    ensures |Front(labels, n, prefixedFirst)| == Start(labels, n)
      && Start(labels, n + 1) == Start(labels, n) + |labels[n]| + 1
  {
    assert labels[..n + 1] == labels[..n] + [labels[n]];
    OneLabel(labels[n]);
    hide Prefixed, Dotted;
    PrefixedConcat(labels[..n], [labels[n]]);
    SameRoom(labels[..n]);
  }

  lemma BackShrinks(labels: seq<Text>, n: nat, prefixedFirst: bool)
    requires n < |labels|
    ensures Back(labels, n, prefixedFirst) == [if prefixedFirst then DOT else |labels[n]|] + labels[n]
      + Back(labels, n + 1, prefixedFirst)
    ensures Back(labels, n + 1, prefixedFirst) != []
    ensures Back(labels, n + 1, prefixedFirst)[0] == (if n + 1 == |labels| then NUL
      else if prefixedFirst then DOT else |labels[n + 1]|)
  {
    assert labels[n..][0] == labels[n] && labels[n..][1..] == labels[n + 1..];
    if n + 1 < |labels| { assert labels[n + 1..][0] == labels[n + 1]; } else { assert labels[n + 1..] == []; }
  }

  // Where label n begins, in either form.
  function Start(labels: seq<Text>, n: nat): nat
    requires n <= |labels|
  {
    |Prefixed(labels[..n])|
  }

  // What stands where while the first n labels have been rewritten.
  lemma MixedParts(labels: seq<Text>, n: nat, prefixedFirst: bool)
    requires AllLabels(labels) && n < |labels|
    ensures IsLabel(labels[n])
    ensures var m, s, k := Mixed(labels, n, prefixedFirst), Start(labels, n), |labels[n]|;
      && s + k + 1 < |m| && m[s] == (if prefixedFirst then DOT else k) && m[s + 1..s + k + 1] == labels[n]
      && Start(labels, n + 1) == s + k + 1
      && m[s + k + 1] == (if n + 1 == |labels| then NUL else if prefixedFirst then DOT else |labels[n + 1]|)
      && Mixed(labels, n + 1, prefixedFirst) == m[s := if prefixedFirst then k else DOT]
  {
    hide Front, Back, Prefixed, Dotted;
    assert labels[n] in labels;
    FrontGrows(labels, n, prefixedFirst);
    BackShrinks(labels, n, prefixedFirst);
    var front, back, l := Front(labels, n, prefixedFirst), Back(labels, n + 1, prefixedFirst), labels[n];
    var one, other := if prefixedFirst then DOT else |l|, if prefixedFirst then |l| else DOT;
    Cell(front, one, l, back, other);
    assert front + ([one] + l + back) == front + [one] + l + back;
  }

  // One label between what is before it and what comes after.
  lemma Cell(front: Text, one: nat, l: Text, back: Text, other: nat)
    requires back != []
    ensures var m := front + [one] + l + back;
      && m[|front|] == one && m[|front| + 1..|front| + 1 + |l|] == l && m[|front| + 1 + |l|] == back[0]
      && m[|front| := other] == front + [other] + l + back
  {
  }

  lemma MixedEnds(labels: seq<Text>, prefixedFirst: bool)
    requires AllLabels(labels)
    ensures var n := |labels|;
      && Mixed(labels, n, prefixedFirst) == (if prefixedFirst then Prefixed(labels) else Dotted(labels)) + [NUL]
      && Mixed(labels, 0, prefixedFirst) == (if prefixedFirst then Dotted(labels) else Prefixed(labels)) + [NUL]
      && Start(labels, n) == |Prefixed(labels)| == |Dotted(labels)| && Start(labels, 0) == 0
  {
    assert labels[..|labels|] == labels && labels[|labels|..] == [] && labels[0..] == labels && labels[..0] == [];
    SameRoom(labels);
  }

  // All forms in between are of the same length and hold NUL only at their end.
  lemma MixedLength(labels: seq<Text>, n: nat, prefixedFirst: bool)
    requires AllLabels(labels) && n <= |labels|
    ensures |Mixed(labels, n, prefixedFirst)| == |Prefixed(labels)| + 1
    ensures forall i | 0 <= i < |Prefixed(labels)| :: Mixed(labels, n, prefixedFirst)[i] != NUL
    ensures Mixed(labels, n, prefixedFirst)[|Prefixed(labels)|] == NUL
  {
    var a, b := labels[..n], labels[n..];
    assert a + b == labels;
    PrefixedConcat(a, b);
    SameRoom(a);
    SameRoom(b);
    forall l | l in a ensures IsLabel(l) { assert l in labels; }
    forall l | l in b ensures IsLabel(l) { assert l in labels; }
    NoNul(a);
    NoNul(b);
    var m := Mixed(labels, n, prefixedFirst);
    var text := if prefixedFirst then Prefixed(a) + Dotted(b) else Dotted(a) + Prefixed(b);
    assert NUL !in text && m == text + [NUL];
    forall i | 0 <= i < |text| ensures m[i] != NUL { assert text[i] in text; }
  }

  // strlen
  method StrLen(s: array<nat>, ghost n: nat) returns (r: nat)
    requires n < s.Length && s[n] == NUL && forall i | 0 <= i < n :: s[i] != NUL
    ensures r == n
  {
    r := 0;
    while s[r] != NUL
      invariant r <= n
      decreases n - r
    {
      r := r + 1;
    }
  }

  // What is read at position i, with the mark at the beginning of label n, or not set yet.
  lemma CharAt(labels: seq<Text>, n: nat, mark: int, i: nat)
    requires AllLabels(labels) && n <= |labels| && i <= |Prefixed(labels)|
    requires if mark < 0 then n == 0 && i == 0 else
      mark == Start(labels, n) < i && n < |labels|
      && i <= Start(labels, n + 1)
    ensures i < |Mixed(labels, n, true)| == |Prefixed(labels)| + 1
    ensures var c := Mixed(labels, n, true)[i];
      if mark < 0 then c == if labels == [] then NUL else DOT
      else if i < Start(labels, n + 1) then c != DOT && c != NUL
      else (c == if n + 1 == |labels| then NUL else DOT) && i == mark + |labels[n]| + 1
           && Mixed(labels, n + 1, true) == Mixed(labels, n, true)[mark := i - mark - 1]
  {
    hide Prefixed, Dotted, Mixed, Start;
    MixedLength(labels, n, true);
    if n < |labels| { MixedParts(labels, n, true); }
    MixedEnds(labels, true);
    if mark >= 0 && i < Start(labels, n + 1) {
      assert Mixed(labels, n, true)[i] == labels[n][i - mark - 1];
      assert labels[n][i - mark - 1] in labels[n];
    }
    if labels == [] { assert Mixed(labels, 0, true) == Prefixed(labels) + [NUL]; }
  }

  lemma NextLabel(labels: seq<Text>, n: nat)
    requires AllLabels(labels) && n <= |labels|
    ensures if n < |labels| then Start(labels, n) < Start(labels, n + 1) else Start(labels, n) == |Prefixed(labels)|
  {
    if n < |labels| { MixedParts(labels, n, true); }
    MixedEnds(labels, true);
  }

  // convert_to_dns.  -1 stands for a null mark.
  method ConvertToDns(dns: array<nat>, ghost labels: seq<Text>)
    requires AllLabels(labels) && Dotted(labels) + [NUL] <= dns[..]
    modifies dns
    ensures dns[..] == Prefixed(labels) + [NUL] + old(dns[..])[|Dotted(labels)| + 1..]
  {
    hide Prefixed, Dotted, Mixed, Start;
    ghost var total, tail := |Prefixed(labels)|, dns[..][|Dotted(labels)| + 1..];
    MixedEnds(labels, true);
    MixedLength(labels, 0, true);
    var mark: int := -1;
    var i := 0;
    ghost var n := 0;
    var len := StrLen(dns, total);
    while i <= len
      invariant len == total && n <= |labels| && |Mixed(labels, n, true)| == total + 1
      invariant dns[..] == Mixed(labels, n, true) + tail
      invariant if mark < 0 then n == 0 && (i == 0 || (labels == [] && i == 1))
                else mark == Start(labels, n) < i && if n < |labels| then i <= Start(labels, n + 1) else i == total + 1
      decreases total + 1 - i
    {
      CharAt(labels, n, mark, i);
      assert dns[..][i] == Mixed(labels, n, true)[i];
      if dns[i] == DOT && mark < 0 {
        mark := i;
        NextLabel(labels, n);
      } else if dns[i] == DOT || (dns[i] == NUL && mark >= 0) {
        dns[mark] := i - mark - 1;
        mark := i;
        n := n + 1;
        NextLabel(labels, n);
      }
      MixedLength(labels, n, true);
      assert dns[..] == Mixed(labels, n, true) + tail;
      forall k | 0 <= k <= total ensures dns[k] == Mixed(labels, n, true)[k] { assert dns[..][k] == dns[k]; }
      i := i + 1;
      len := StrLen(dns, total);
    }
    if n < |labels| { MixedParts(labels, n, true); }
  }

  // convert_to_str with len 0.  max is an offset into the buffer; a name that reaches beyond it is left alone.
  method ConvertToStr(pkt: array<nat>, max: nat, ghost labels: seq<Text>)
    requires AllLabels(labels) && Prefixed(labels) + [NUL] <= pkt[..]
    modifies pkt
    ensures if |Prefixed(labels)| > max then pkt[..] == old(pkt[..])
            else pkt[..] == Dotted(labels) + [NUL] + old(pkt[..])[|Prefixed(labels)| + 1..]
  {
    hide Prefixed, Dotted, Mixed, Start;
    ghost var total, tail := |Prefixed(labels)|, pkt[..][|Prefixed(labels)| + 1..];
    MixedEnds(labels, false);
    MixedLength(labels, 0, false);
    var len := StrLen(pkt, total);
    if len > max { return; }
    var i := 0;
    ghost var n := 0;
    while i < len
      invariant len == total && n <= |labels| && i == Start(labels, n) && |Mixed(labels, n, false)| == total + 1
      invariant pkt[..] == Mixed(labels, n, false) + tail
      decreases |labels| - n
    {
      AtLabel(labels, n, i);
      MixedParts(labels, n, false);
      assert pkt[..][i] == Mixed(labels, n, false)[i];
      var j := pkt[i];
      pkt[i] := DOT;
      i := i + j;
      i := i + 1;
      n := n + 1;
      MixedLength(labels, n, false);
      assert pkt[..] == Mixed(labels, n, false) + tail;
      forall k | 0 <= k <= total ensures pkt[k] == Mixed(labels, n, false)[k] { assert pkt[..][k] == pkt[k]; }
      len := StrLen(pkt, total);
    }
    if n < |labels| { MixedParts(labels, n, false); }
  }

  lemma AtLabel(labels: seq<Text>, n: nat, i: nat)
    requires AllLabels(labels) && n <= |labels| && i == Start(labels, n) && i < |Prefixed(labels)|
    ensures n < |labels|
  {
    MixedEnds(labels, false);
  }

  // There and back again: every name is restored byte for byte.
  method RoundTrip(buf: array<nat>, max: nat, ghost labels: seq<Text>)
    requires AllLabels(labels) && Dotted(labels) + [NUL] <= buf[..] && max >= buf.Length
    modifies buf
    ensures buf[..] == old(buf[..])
  {
    hide Prefixed, Dotted;
    ghost var tail := buf[..][|Dotted(labels)| + 1..];
    SameRoom(labels);
    ConvertToDns(buf, labels);
    assert Prefixed(labels) + [NUL] <= buf[..];
    assert buf[..][|Prefixed(labels)| + 1..] == tail;
    ConvertToStr(buf, max, labels);
  }
}
