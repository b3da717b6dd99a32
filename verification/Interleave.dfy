/** Interleavings of several sequences: a schedule says which of them each element is taken from. */
module Interleave {
  /** The schedule takes every part from front to back, and all of it. */
  ghost predicate Schedule<T>(parts: seq<seq<T>>, sched: seq<nat>)
    decreases |sched|
  {
    if sched == [] then forall k | 0 <= k < |parts| :: parts[k] == []
    else
      && sched[0] < |parts|
      && parts[sched[0]] != []
      && Schedule(parts[sched[0] := parts[sched[0]][1..]], sched[1..])
  }

  ghost function Weave<T>(parts: seq<seq<T>>, sched: seq<nat>): (r: seq<T>)
    requires Schedule(parts, sched)
    ensures |r| == |sched|
    decreases |sched|
  {
    if sched == [] then []
    else [parts[sched[0]][0]] + Weave(parts[sched[0] := parts[sched[0]][1..]], sched[1..])
  }

  /** The elements of r that the schedule took from part k. */
  ghost function From<T>(r: seq<T>, sched: seq<nat>, k: nat): seq<T>
    requires |r| == |sched|
    decreases |r|
  {
    if r == [] then []
    else (if sched[0] == k then [r[0]] else []) + From(r[1..], sched[1..], k)
  }

  /** Conversely, splitting a sequence by a schedule gives parts that weave back to it. */
  ghost function Unweave<T>(r: seq<T>, sched: seq<nat>, n: nat): seq<seq<T>>
    requires |r| == |sched|
  {
    seq(n, k requires 0 <= k < n => From(r, sched, k))
  }

  lemma {:induction false} UnweaveWeave<T>(r: seq<T>, sched: seq<nat>, n: nat)
    requires |r| == |sched| && forall i | 0 <= i < |sched| :: sched[i] < n
    ensures Schedule(Unweave(r, sched, n), sched) && Weave(Unweave(r, sched, n), sched) == r
    decreases |r|
  {
    var parts := Unweave(r, sched, n);
    if r != [] {
      var k := sched[0];
      assert parts[k] == [r[0]] + From(r[1..], sched[1..], k);
      var rest := parts[k := parts[k][1..]];
      forall a | 0 <= a < n
        ensures rest[a] == Unweave(r[1..], sched[1..], n)[a]
      {
        if a != k { assert parts[a] == [] + From(r[1..], sched[1..], a); }
      }
      assert rest == Unweave(r[1..], sched[1..], n);
      UnweaveWeave(r[1..], sched[1..], n);
    }
  }

  /** Every element of a weave comes from the part the schedule names. */
  lemma {:induction false} WeaveAt<T>(parts: seq<seq<T>>, sched: seq<nat>, i: nat)
    requires Schedule(parts, sched) && i < |sched|
    ensures sched[i] < |parts| && Weave(parts, sched)[i] in parts[sched[i]]
    decreases |sched|
  {
    var k := sched[0];
    var rest := parts[k := parts[k][1..]];
    if i > 0 {
      WeaveAt(rest, sched[1..], i - 1);
      assert Weave(rest, sched[1..])[i - 1] in rest[sched[i]];
      if sched[i] == k {
        assert forall x | x in parts[k][1..] :: x in parts[k];
      }
    }
  }

  /** The numbers in the order in which they first appear. */
  ghost function Firsts(sched: seq<nat>): (r: seq<nat>)
    decreases |sched|
  {
    if sched == [] then []
    else
      var before := Firsts(sched[..|sched| - 1]);
      if sched[|sched| - 1] in before then before else before + [sched[|sched| - 1]]
  }

  /** The numbers in the order in which they last appear. */
  ghost function Lasts(sched: seq<nat>): seq<nat>
    decreases |sched|
  {
    if sched == [] then []
    else if sched[0] in sched[1..] then Lasts(sched[1..])
    else [sched[0]] + Lasts(sched[1..])
  }

  ghost function UpTo(n: nat): (r: seq<nat>)
    ensures |r| == n && forall i | 0 <= i < n :: r[i] == i
  {
    seq(n, i => i)
  }

  function Concat(parts: seq<string>): string
    decreases |parts|
  {
    if parts == [] then "" else parts[0] + Concat(parts[1..])
  }

  lemma {:induction false} ConcatAppend(a: seq<string>, b: seq<string>)
    ensures Concat(a + b) == Concat(a) + Concat(b)
    decreases |a|
  {
    if a == [] {
      assert a + b == b;
    } else {
      assert (a + b)[1..] == a[1..] + b;
      ConcatAppend(a[1..], b);
    }
  }

  lemma ConcatSnoc(a: seq<string>, x: string)
    ensures Concat(a + [x]) == Concat(a) + x
  {
    ConcatAppend(a, [x]);
    assert Concat([x]) == x + Concat([]);
  }

  /** A part still has elements exactly while the schedule names it. */
  lemma {:induction false} ScheduleNames<T>(parts: seq<seq<T>>, sched: seq<nat>, k: nat)
    requires Schedule(parts, sched) && k < |parts|
    ensures k in sched <==> parts[k] != []
    decreases |sched|
  {
    if sched != [] {
      ScheduleNames(parts[sched[0] := parts[sched[0]][1..]], sched[1..], k);
      assert sched == [sched[0]] + sched[1..];
    }
  }

  ghost predicate Sorted(sched: seq<nat>) {
    forall i, j | 0 <= i < j < |sched| :: sched[i] <= sched[j]
  }

  /** The parts one after the other, from number k on. */
  ghost function Flat<T>(parts: seq<seq<T>>, k: nat): seq<T>
    requires k <= |parts|
    decreases |parts| - k
  {
    if k == |parts| then [] else parts[k] + Flat(parts, k + 1)
  }

  lemma {:induction false} FlatFront<T>(parts: seq<seq<T>>, k: nat, a: nat)
    requires k <= a < |parts| && parts[a] != [] && forall b | k <= b < a :: parts[b] == []
    ensures Flat(parts, k) == [parts[a][0]] + Flat(parts[a := parts[a][1..]], k)
    decreases a - k
  {
    var rest := parts[a := parts[a][1..]];
    if k == a {
      FlatSame(parts, rest, k + 1);
    } else {
      FlatFront(parts, k + 1, a);
    }
  }

  lemma {:induction false} FlatSame<T>(p: seq<seq<T>>, q: seq<seq<T>>, k: nat)
    requires |p| == |q| && k <= |p| && forall b | k <= b < |p| :: p[b] == q[b]
    ensures Flat(p, k) == Flat(q, k)
    decreases |p| - k
  {
    if k < |p| { FlatSame(p, q, k + 1); }
  }

  lemma {:induction false} FlatEmpty<T>(parts: seq<seq<T>>, k: nat)
    requires k <= |parts| && forall b | k <= b < |parts| :: parts[b] == []
    ensures Flat(parts, k) == []
    decreases |parts| - k
  {
    if k < |parts| { FlatEmpty(parts, k + 1); }
  }

  /** A sorted schedule takes the parts one after the other. */
  lemma {:induction false} SortedWeave<T>(parts: seq<seq<T>>, sched: seq<nat>)
    requires Schedule(parts, sched) && Sorted(sched)
    ensures Weave(parts, sched) == Flat(parts, 0)
    decreases |sched|
  {
    if sched == [] {
      FlatEmpty(parts, 0);
    } else {
      var a := sched[0];
      forall b | 0 <= b < a
        ensures parts[b] == []
      {
        ScheduleNames(parts, sched, b);
      }
      FlatFront(parts, 0, a);
      SortedWeave(parts[a := parts[a][1..]], sched[1..]);
    }
  }

  lemma ConcatNone()
    ensures Concat([]) == ""
  {
  }

  // ---- joining texts that arrive out of order ----

  function As(k: nat): string { if k == 0 then "" else "a" + As(k - 1) }

  /** A text that tells its number, also when others are joined to it. */
  function Code(k: nat): string { As(k) + "b" }

  function Codes(tags: seq<nat>): seq<string> { seq(|tags|, i requires 0 <= i < |tags| => Code(tags[i])) }

  /** Every piece of part k is the code of k. */
  ghost predicate Coded(parts: seq<seq<string>>) {
    forall k, j | 0 <= k < |parts| && 0 <= j < |parts[k]| :: parts[k][j] == Code(k)
  }

  lemma {:induction false} AsOnly(k: nat)
    ensures |As(k)| == k && 'b' !in As(k)
    decreases k
  {
    if k > 0 { AsOnly(k - 1); }
  }

  /** What codes join up to tells the codes. */
  lemma {:induction false} CodesInjective(x: seq<nat>, y: seq<nat>)
    requires Concat(Codes(x)) == Concat(Codes(y))
    ensures x == y
    decreases |x|
  {
    CodesEmpty(x);
    CodesEmpty(y);
    if x != [] {
      CodesCons(x);
      CodesCons(y);
      AsOnly(x[0]);
      AsOnly(y[0]);
      var rx, ry := Concat(Codes(x[1..])), Concat(Codes(y[1..]));
      CutAtB(As(x[0]), rx, As(y[0]), ry);
      CodesInjective(x[1..], y[1..]);
      assert x == [x[0]] + x[1..] && y == [y[0]] + y[1..];
    }
  }

  lemma CodesCons(x: seq<nat>)
    requires x != []
    ensures Concat(Codes(x)) == As(x[0]) + "b" + Concat(Codes(x[1..]))
  {
    assert Codes(x)[1..] == Codes(x[1..]);
  }

  lemma CodesEmpty(x: seq<nat>)
    ensures Concat(Codes(x)) == "" <==> x == []
  {
    if x != [] { CodesCons(x); }
  }

  lemma CutAtB(a: string, r: string, b: string, s: string)
    requires 'b' !in a && 'b' !in b && a + "b" + r == b + "b" + s
    ensures a == b && r == s
  {
    var x, y := a + "b" + r, b + "b" + s;
    assert x[|a|] == 'b' && y[|b|] == 'b';
    assert forall i | 0 <= i < |a| :: x[i] == a[i];
    assert forall i | 0 <= i < |b| :: y[i] == b[i];
    assert |a| == |b|;
    assert x[..|a|] == a && y[..|b|] == b && x[|a| + 1..] == r && y[|b| + 1..] == s;
  }

  /** The numbers of the parts, as often as they have elements. */
  ghost function Tags<T>(parts: seq<seq<T>>, k: nat): (r: seq<nat>)
    requires k <= |parts|
    ensures Sorted(r) && forall i | 0 <= i < |r| :: r[i] >= k
    decreases |parts| - k
  {
    if k == |parts| then [] else seq(|parts[k]|, i => k) + Tags(parts, k + 1)
  }

  lemma {:induction false} FlatCodes(parts: seq<seq<string>>, k: nat)
    requires Coded(parts) && k <= |parts|
    ensures Flat(parts, k) == Codes(Tags(parts, k))
    decreases |parts| - k
  {
    hide Code;
    if k < |parts| {
      FlatCodes(parts, k + 1);
      var same := seq(|parts[k]|, i => k);
      assert parts[k] == Codes(same);
      assert Codes(same + Tags(parts, k + 1)) == Codes(same) + Codes(Tags(parts, k + 1));
    }
  }

  /** Interleaved codes join up to the codes in order only if the schedule is sorted. */
  lemma Scrambled(parts: seq<seq<string>>, sched: seq<nat>)
    requires Coded(parts) && Schedule(parts, sched) && !Sorted(sched)
    ensures Concat(Weave(parts, sched)) != Concat(Flat(parts, 0))
  {
    forall i | 0 <= i < |sched|
      ensures Weave(parts, sched)[i] == Code(sched[i])
    {
      WeaveAt(parts, sched, i);
    }
    assert Weave(parts, sched) == Codes(sched);
    FlatCodes(parts, 0);
    if Concat(Weave(parts, sched)) == Concat(Flat(parts, 0)) {
      CodesInjective(sched, Tags(parts, 0));
    }
  }

  ghost predicate NoneEmpty(parts: seq<seq<string>>) {
    forall k, j | 0 <= k < |parts| && 0 <= j < |parts[k]| :: parts[k][j] != ""
  }

  /** The codes of a schedule, split by it. */
  lemma CodedParts(sched: seq<nat>, n: nat)
    requires forall i | 0 <= i < |sched| :: sched[i] < n
    ensures Schedule(Unweave(Codes(sched), sched, n), sched)
    ensures Coded(Unweave(Codes(sched), sched, n)) && NoneEmpty(Unweave(Codes(sched), sched, n))
  {
    UnweaveWeave(Codes(sched), sched, n);
    forall k | 0 <= k < n
      ensures forall j | 0 <= j < |From(Codes(sched), sched, k)| :: From(Codes(sched), sched, k)[j] == Code(k)
    {
      FromCodes(sched, k);
    }
  }

  lemma {:induction false} FromCodes(sched: seq<nat>, k: nat)
    ensures forall j | 0 <= j < |From(Codes(sched), sched, k)| :: From(Codes(sched), sched, k)[j] == Code(k)
    decreases |sched|
  {
    hide Code;
    if sched != [] {
      FromCodes(sched[1..], k);
      assert Codes(sched)[1..] == Codes(sched[1..]);
    }
  }

  /**
   Pieces of several texts join up to the texts in order, whatever the pieces, exactly if the schedule
   is sorted; it makes no difference if empty pieces are left aside.
   */
  lemma TextOrderExact(sched: seq<nat>, n: nat)
    requires forall a | 0 <= a < |sched| :: sched[a] < n
    ensures Sorted(sched) <==>
            (forall parts: seq<seq<string>> | |parts| == n && Schedule(parts, sched) ::
               Concat(Weave(parts, sched)) == Concat(Flat(parts, 0)))
    ensures Sorted(sched) <==>
            (forall parts: seq<seq<string>> | |parts| == n && Schedule(parts, sched) && NoneEmpty(parts) ::
               Concat(Weave(parts, sched)) == Concat(Flat(parts, 0)))
  {
    if Sorted(sched) {
      forall parts: seq<seq<string>> | |parts| == n && Schedule(parts, sched)
        ensures Concat(Weave(parts, sched)) == Concat(Flat(parts, 0))
      {
        SortedWeave(parts, sched);
      }
    } else {
      CodedParts(sched, n);
      Scrambled(Unweave(Codes(sched), sched, n), sched);
    }
  }

  // ---- interleavings of the same shape ----

  lemma {:induction false} SameSchedule<S, T>(p: seq<seq<S>>, q: seq<seq<T>>, sched: seq<nat>)
    requires |p| == |q| && (forall k | 0 <= k < |p| :: |p[k]| == |q[k]|) && Schedule(p, sched)
    ensures Schedule(q, sched)
    decreases |sched|
  {
    if sched != [] {
      var k := sched[0];
      SameSchedule(p[k := p[k][1..]], q[k := q[k][1..]], sched[1..]);
    }
  }
}
