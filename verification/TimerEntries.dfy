/** `std::set<std::pair<Timestamp, Timer*>>`, kept as the strictly increasing sequence of its elements. */
module TimerEntries {

  type Address = nat

  const UINTPTR_MAX: nat := 0xFFFF_FFFF_FFFF_FFFF

  datatype Entry = Entry(when: int, timer: Address)

  /** The order of `std::pair`. */
  predicate Less(a: Entry, b: Entry) {
    a.when < b.when || (a.when == b.when && a.timer < b.timer)
  }

  predicate Ordered(s: seq<Entry>) {
    forall i, j :: 0 <= i < j < |s| ==> Less(s[i], s[j])
  }

  function Insert(s: seq<Entry>, e: Entry): seq<Entry> {
    if s == [] || Less(e, s[0]) then [e] + s
    else if e == s[0] then s
    else [s[0]] + Insert(s[1..], e)
  }

  function Erase(s: seq<Entry>, e: Entry): seq<Entry> {
    if s == [] then []
    else if s[0] == e then s[1..]
    else [s[0]] + Erase(s[1..], e)
  }

  /** The number of elements that precede e. */
  function LowerBound(s: seq<Entry>, e: Entry): (n: nat)
    ensures n <= |s|
  {
    if s == [] || !Less(s[0], e) then 0 else 1 + LowerBound(s[1..], e)
  }

  lemma {:induction false} InsertElements(s: seq<Entry>, e: Entry)
    requires Ordered(s) && e !in s
    ensures Ordered(Insert(s, e)) && |Insert(s, e)| == |s| + 1
    ensures forall x :: x in Insert(s, e) <==> x in s || x == e
  {
    if s == [] || Less(e, s[0]) {
    } else {
      InsertElements(s[1..], e);
      assert s == [s[0]] + s[1..];
      var t := Insert(s[1..], e);
      forall i | 0 <= i < |t| ensures Less(s[0], t[i]) {
        assert t[i] in t;
      }
    }
  }

  lemma {:induction false} EraseElements(s: seq<Entry>, e: Entry)
    requires Ordered(s) && e in s
    ensures Ordered(Erase(s, e)) && |Erase(s, e)| == |s| - 1
    ensures forall x :: x in Erase(s, e) <==> x in s && x != e
  {
    assert s == [s[0]] + s[1..];
    if s[0] == e {
      assert forall i :: 0 <= i < |s[1..]| ==> Less(e, s[1..][i]);
    } else {
      EraseElements(s[1..], e);
      var t := Erase(s[1..], e);
      forall i | 0 <= i < |t| ensures Less(s[0], t[i]) {
        assert t[i] in t;
      }
    }
  }

  /** Erasing cannot bring the first element forward. */
  lemma {:induction false} EraseFirst(s: seq<Entry>, e: Entry)
    requires Ordered(s) && e in s && Erase(s, e) != []
    ensures s[0].when <= Erase(s, e)[0].when
  {
  }

  lemma {:induction false} LowerBoundSplits(s: seq<Entry>, e: Entry)
    requires Ordered(s)
    ensures forall i :: 0 <= i < LowerBound(s, e) ==> Less(s[i], e)
    ensures forall i :: LowerBound(s, e) <= i < |s| ==> !Less(s[i], e)
  {
    if s != [] && Less(s[0], e) {
      LowerBoundSplits(s[1..], e);
    }
  }
}
