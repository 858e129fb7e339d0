/** Names for the node's ends of veth pairs (`daemon/grpcwire/grpcwire.go`). */
module Names {
  import opened Decimal
  import Ids

  function Zeros(n: nat): (s: string)
    ensures |s| == n && forall i :: 0 <= i < n ==> s[i] == '0'
  {
    if n == 0 then "" else "0" + Zeros(n - 1)
  }

  function ZeroPadded(s: string, width: nat): string {
    if |s| < width then Zeros(width - |s|) + s else s
  }

  /** `%04d`: the sign counts toward the width. */
  function Format04(id: int): string {
    if id >= 0 then ZeroPadded(Digits(id), 4) else "-" + ZeroPadded(Digits(-id), 3)
  }

  /** `%.5s` of a string of ASCII characters. */
  function FirstFive(s: string): string { if |s| <= 5 then s else s[..5] }

  function NameFor(pod: string, intf: string, id: int): string {
    FirstFive(pod) + FirstFive(intf) + "-" + Format04(id)
  }

  class Index {
    var currId: int

    constructor ()
      ensures currId == 0
    {
      currId := 0;
    }

    /** `NextIndex`, on an `int64`. */
    method NextIndex() returns (id: int)
      modifies this
      ensures currId == Ids.Wrap64(old(currId) + 1) && id == currId
    {
      currId := Ids.Wrap64(currId + 1);
      return currId;
    }

    /** `GenNodeIfaceName`. */
    method GenNodeIfaceName(pod: string, intf: string) returns (name: string)
      modifies this
      ensures currId == Ids.Wrap64(old(currId) + 1)
      ensures name == NameFor(pod, intf, currId)
    {
      var id := NextIndex();
      name := FirstFive(pod) + FirstFive(intf) + "-" + Format04(id);
    }
  }

  // ---- the number can be read back from the name ----

  lemma {:induction false} ValueOfPadded(n: nat, s: string)
    requires AllDigits(s)
    ensures AllDigits(Zeros(n) + s) && Value(Zeros(n) + s) == Value(s)
    decreases n, |s|
  {
    var t := Zeros(n) + s;
    if s != "" {
      ValueOfPadded(n, s[..|s| - 1]);
      assert t[..|t| - 1] == Zeros(n) + s[..|s| - 1];
    } else if n > 0 {
      ValueOfPadded(n - 1, "");
      assert t[..n - 1] == Zeros(n - 1) + "";
    }
  }

  lemma FormatReadsBack(id: nat)
    ensures AllDigits(Format04(id)) && Value(Format04(id)) == id
  {
    var d := Digits(id);
    ValueOfDigits(id);
    if |d| < 4 { ValueOfPadded(4 - |d|, d); }
  }

  lemma DashIsNoDigit(a: string, d: string, b: string, e: string)
    requires AllDigits(e) && a + "-" + d == b + "-" + e
    ensures |a| <= |b|
  {
    var s, t := a + "-" + d, b + "-" + e;
    assert s[|a|] == '-';
    assert forall k :: |b| < k < |t| ==> t[k] == e[k - |b| - 1];
  }

  /** What follows the last dash of a text is determined by the text. */
  lemma LastDash(a: string, d: string, b: string, e: string)
    requires AllDigits(d) && AllDigits(e) && a + "-" + d == b + "-" + e
    ensures d == e
  {
    DashIsNoDigit(a, d, b, e);
    DashIsNoDigit(b, e, a, d);
    assert d == (a + "-" + d)[|a| + 1..] && e == (b + "-" + e)[|b| + 1..];
  }

  /** Equal names have equal numbers, whatever the pod and interface names are and whatever dashes they contain. */
  lemma NameTellsNumber(pod: string, intf: string, id: nat, pod': string, intf': string, id': nat)
    requires NameFor(pod, intf, id) == NameFor(pod', intf', id')
    ensures id == id'
  {
    FormatReadsBack(id);
    FormatReadsBack(id');
    LastDash(FirstFive(pod) + FirstFive(intf), Format04(id), FirstFive(pod') + FirstFive(intf'), Format04(id'));
  }

  function Shorter(s: string): nat { if |s| < 5 then |s| else 5 }

  /** What a name is made of: up to five characters of the pod's name, up to five of the interface's, a dash, and at
      least four digits that read back as the number. */
  lemma NameSpelledOut(pod: string, intf: string, id: nat)
    ensures var name, p, i := NameFor(pod, intf, id), Shorter(pod), Shorter(intf);
            && |name| >= p + i + 5
            && name[..p] == pod[..p] && name[p..p + i] == intf[..i] && name[p + i] == '-'
            && AllDigits(name[p + i + 1..]) && Value(name[p + i + 1..]) == id
  {
    FormatReadsBack(id);
    FormatWidth(id);
    Pieces(pod[..Shorter(pod)], intf[..Shorter(intf)], Format04(id));
    assert FirstFive(pod) == pod[..Shorter(pod)] && FirstFive(intf) == intf[..Shorter(intf)];
  }

  lemma FormatWidth(id: nat)
    ensures |Format04(id)| >= 4
  {
  }

  lemma Pieces(a: string, b: string, d: string)
    ensures var s := a + b + "-" + d;
            && |s| == |a| + |b| + 1 + |d|
            && s[..|a|] == a && s[|a|..|a| + |b|] == b && s[|a| + |b|] == '-' && s[|a| + |b| + 1..] == d
  {
  }

  // ---- runs ----

  /** The counter after `n` calls. */
  function CounterAfter(n: nat): int {
    if n == 0 then 0 else Ids.Wrap64(CounterAfter(n - 1) + 1)
  }

  lemma {:induction false} CounterCounts(n: nat)
    ensures CounterAfter(n) == Ids.Wrap64(n)
  {
    if n > 0 {
      CounterCounts(n - 1);
      Ids.WrapSuccessor(n - 1);
    }
  }

  /** The name that call number `n` returns. */
  function NameOfCall(requests: seq<(string, string)>, n: nat): string
    requires n < |requests|
  {
    NameFor(requests[n].0, requests[n].1, CounterAfter(n + 1))
  }

  /** Over any sequence of calls that a 64-bit counter can count, no name is returned twice: calls with equal names are
      the same call. */
  lemma NamesNeverCollide(requests: seq<(string, string)>, i: nat, j: nat)
    requires i < |requests| < Ids.TWO_63 && j < |requests|
    requires NameOfCall(requests, i) == NameOfCall(requests, j)
    ensures i == j
  {
    EqualNamesCollide(requests[i].0, requests[i].1, CounterAfter(i + 1), requests[j].0, requests[j].1,
                      CounterAfter(j + 1));
    CounterCountsUp(i + 1);
    CounterCountsUp(j + 1);
  }

  lemma CounterCountsUp(n: nat)
    requires n < Ids.TWO_63
    ensures CounterAfter(n) == n
  {
    CounterCounts(n);
  }

  // ---- beyond that ----

  /** A name's text up to its last dash, and the text after it. */
  function Head(pod: string, intf: string, id: int): string {
    FirstFive(pod) + FirstFive(intf) + if id < 0 then "-" else ""
  }

  function Tail(id: int): string { if id >= 0 then Format04(id) else ZeroPadded(Digits(-id), 3) }

  lemma NameSplits(pod: string, intf: string, id: int)
    ensures NameFor(pod, intf, id) == Head(pod, intf, id) + "-" + Tail(id)
  {
  }

  lemma TailReadsBack(id: int)
    ensures AllDigits(Tail(id)) && Value(Tail(id)) == (if id >= 0 then id else -id)
    ensures |Tail(id)| >= 4 <==> id >= 0 || id <= -1000
  {
    if id >= 0 {
      FormatReadsBack(id);
    } else {
      var d := Digits(-id);
      ValueOfDigits(-id);
      if |d| < 3 { ValueOfPadded(3 - |d|, d); }
      assert PowerOfTen(3) == 1000;
      DigitsCount(-id, 3, 1000);
    }
  }

  predicate Collide(a: int, b: int) { a == b || (a == -b && (a >= 1000 || b >= 1000)) }

  lemma EqualNamesCollide(pod: string, intf: string, a: int, pod': string, intf': string, b: int)
    requires NameFor(pod, intf, a) == NameFor(pod', intf', b)
    ensures Collide(a, b)
  {
    NameSplits(pod, intf, a);
    NameSplits(pod', intf', b);
    TailReadsBack(a);
    TailReadsBack(b);
    LastDash(Head(pod, intf, a), Tail(a), Head(pod', intf', b), Tail(b));
  }

  lemma OppositeNames(a: int)
    requires a >= 1000
    ensures NameFor("", "-", a) == NameFor("", "", -a)
  {
    NameSplits("", "-", a);
    NameSplits("", "", -a);
    assert PowerOfTen(3) == 1000;
    DigitsCount(a, 3, 1000);
    assert Tail(a) == Digits(a) == Tail(-a);
  }

  /** Exactly which numbers can give the same name, for some pod and interface names: equal ones, and opposite ones
      of at least four digits, because the sign looks like the dash. */
  lemma NamesCollideExactlyWhen(a: int, b: int)
    ensures (exists pod, intf, pod', intf' :: NameFor(pod, intf, a) == NameFor(pod', intf', b)) <==> Collide(a, b)
  {
    if pod, intf, pod', intf' :| NameFor(pod, intf, a) == NameFor(pod', intf', b) {
      EqualNamesCollide(pod, intf, a, pod', intf', b);
    }
    if Collide(a, b) {
      var pod, intf, pod', intf' := CollidingNames(a, b);
    }
  }

  lemma CollidingNames(a: int, b: int) returns (pod: string, intf: string, pod': string, intf': string)
    requires Collide(a, b)
    ensures NameFor(pod, intf, a) == NameFor(pod', intf', b)
  {
    pod, intf, pod', intf' := "", "", "", "";
    if a > b {
      intf := "-";
      OppositeNames(a);
    } else if b > a {
      intf' := "-";
      OppositeNames(b);
    }
  }

  /** So the bound is needed: once the counter has wrapped, it comes by the opposite of every number it gave out. */
  lemma WrappedCounterCollides(n: nat)
    requires 1000 <= n < Ids.TWO_63
    ensures NameFor("", "-", CounterAfter(n)) == NameFor("", "", CounterAfter(Ids.TWO_64 - n))
  {
    CounterCounts(n);
    CounterCounts(Ids.TWO_64 - n);
    Ids.WrapOpposite(n);
    OppositeNames(n);
  }

  lemma {:induction false} DigitsCount(n: nat, k: nat, bound: nat)
    requires k >= 1 && bound == PowerOfTen(k)
    ensures |Digits(n)| <= k <==> n < bound
  {
    if n >= 10 && k > 1 {
      DigitsCount(n / 10, k - 1, PowerOfTen(k - 1));
    } else {
      assert bound == 10 * PowerOfTen(k - 1);
      assert k == 1 ==> PowerOfTen(0) == 1;
    }
  }

  function PowerOfTen(k: nat): (r: nat)
    ensures r >= 1
  {
    if k == 0 then 1 else 10 * PowerOfTen(k - 1)
  }

  /** For pod and interface names of five characters or more, the name fits the kernel's 15 visible bytes exactly
      for the first 9999 calls; for shorter ones it does so at least then. */
  lemma NamesFitExactlyWhen(pod: string, intf: string, id: nat)
    ensures id < 10000 ==> |NameFor(pod, intf, id)| <= 15
    ensures |pod| >= 5 && |intf| >= 5 ==> (|NameFor(pod, intf, id)| <= 15 <==> id < 10000)
  {
    assert PowerOfTen(4) == 10000;
    DigitsCount(id, 4, 10000);
  }
}
