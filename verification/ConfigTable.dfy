/** The table of configuration records: sorted in place by descending name
    length, so that looking a name up by prefix finds the longest record. */
module ConfigTable {
  import opened Strings

  // An array record is matched by its name followed by anything, so that an
  // index may follow; a scalar one by its name alone.
  datatype Record = Record(name: string, isArray: bool)

  predicate Match(r: Record, name: string) {
    if r.isArray then r.name <= name else r.name == name
  }

  // ----- sorting -----

  ghost predicate Descending(s: seq<Record>) {
    forall i, j | 0 <= i < j < |s| :: |s[i].name| >= |s[j].name|
  }

  function Swapped(s: seq<Record>, i: nat, j: nat): seq<Record>
    requires i < |s| && j < |s|
  {
    s[i := s[j]][j := s[i]]
  }

  lemma SwappedSame(s: seq<Record>, i: nat, j: nat)
    requires i < j < |s|
    ensures multiset(Swapped(s, i, j)) == multiset(s)
  {
  }

  // Positions before i are in place.
  ghost predicate Placed(s: seq<Record>, i: nat)
    requires i <= |s|
  {
    forall k, l | 0 <= k < i && k < l < |s| :: |s[k].name| >= |s[l].name|
  }

  method SortConfigVars(a: array<Record>)
    modifies a
    ensures Descending(a[..])
    ensures multiset(a[..]) == multiset(old(a[..]))
  {
    for i := 0 to a.Length
      invariant Placed(a[..], i)
      invariant multiset(a[..]) == multiset(old(a[..]))
    {
      PlaceNext(a, i);
    }
  }

  // Position i holds the longest of positions i .. j.
  ghost predicate Longest(s: seq<Record>, i: nat, j: nat)
    requires i < j <= |s|
  {
    forall l | i < l < j :: |s[i].name| >= |s[l].name|
  }

  lemma {:induction false} SwapImproves(s: seq<Record>, i: nat, j: nat)
    requires i < j < |s| && Placed(s, i) && Longest(s, i, j) && |s[i].name| < |s[j].name|
    ensures Placed(Swapped(s, i, j), i) && Longest(Swapped(s, i, j), i, j + 1)
    ensures multiset(Swapped(s, i, j)) == multiset(s)
  {
    SwappedSame(s, i, j);
    var t := Swapped(s, i, j);
    forall k, l | 0 <= k < i && k < l < |t|
      ensures |t[k].name| >= |t[l].name|
    {
      assert t[k] == s[k] && (t[l] == s[l] || t[l] == s[i] || t[l] == s[j]);
    }
  }

  lemma {:induction false} PlacedNext(s: seq<Record>, i: nat)
    requires i < |s| && Placed(s, i) && Longest(s, i, |s|)
    ensures Placed(s, i + 1)
  {
  }

  // The inner loop: the longest of the rest comes to position i.
  method PlaceNext(a: array<Record>, i: nat)
    requires i < a.Length && Placed(a[..], i)
    modifies a
    ensures Placed(a[..], i + 1)
    ensures multiset(a[..]) == multiset(old(a[..]))
  {
    var len := |a[i].name|;
    for j := i + 1 to a.Length
      invariant len == |a[i].name|
      invariant Placed(a[..], i) && Longest(a[..], i, j)
      invariant multiset(a[..]) == multiset(old(a[..]))
    {
      ghost var before := a[..];
      var next := |a[j].name|;
      if len < next {
        SwapImproves(before, i, j);
        a[i], a[j] := a[j], a[i];
        assert a[..] == Swapped(before, i, j);
        len := next;
      } else {
        assert Longest(before, i, j + 1);
      }
    }
    PlacedNext(a[..], i);
  }

  // ----- lookup -----

  // The first record that matches, or the length of the table.
  function Find(s: seq<Record>, name: string): (i: nat)
    ensures i <= |s| && (i < |s| ==> Match(s[i], name))
    ensures forall k | 0 <= k < i :: !Match(s[k], name)
  {
    if s == [] || Match(s[0], name) then 0
    else
      var i := Find(s[1..], name);
      assert forall k | 1 <= k < i + 1 :: s[k] == s[1..][k - 1];
      1 + i
  }

  method FindOption(a: array<Record>, name: string) returns (i: nat)
    ensures i == Find(a[..], name)
  {
    i := 0;
    while i < a.Length
      invariant i <= a.Length && Find(a[..], name) == i + Find(a[i..], name)
    {
      if Match(a[i], name) {
        return;
      }
      assert a[i..][1..] == a[i + 1..];
      i := i + 1;
    }
  }

  // The lookup is by longest match: what it finds has maximal length, and
  // every match of that length has the same name.
  ghost predicate FindsLongest(s: seq<Record>, name: string) {
    var i := Find(s, name);
    forall k | 0 <= k < |s| && Match(s[k], name) :: i < |s| && |s[k].name| <= |s[i].name|
  }

  lemma {:induction false} SortedFindsLongest(s: seq<Record>, name: string)
    requires Descending(s)
    ensures FindsLongest(s, name)
    ensures forall k | 0 <= k < |s| && Match(s[k], name) && |s[k].name| == |s[Find(s, name)].name| :: s[k].name == s[Find(s, name)].name
  {
    var i := Find(s, name);
    forall k | 0 <= k < |s| && Match(s[k], name)
      ensures i < |s| && |s[k].name| <= |s[i].name|
      ensures |s[k].name| == |s[i].name| ==> s[k].name == s[i].name
    {
      assert i <= k;
      assert s[k].name <= name && s[i].name <= name;
    }
  }

  // An array record standing before a longer record that extends its name.
  ghost predicate Shadowed(s: seq<Record>) {
    exists i, j :: 0 <= i < j < |s| && s[i].isArray && s[i].name <= s[j].name && s[i].name != s[j].name
  }

  ghost predicate DistinctNames(s: seq<Record>) {
    forall i, j | 0 <= i < j < |s| :: s[i].name != s[j].name
  }

  // Exactly which orders of a table make the lookup a longest match for every
  // name; descending length is one of them.
  lemma {:induction false} LongestIff(s: seq<Record>)
    requires DistinctNames(s)
    ensures (forall name :: FindsLongest(s, name)) <==> !Shadowed(s)
    ensures Descending(s) ==> !Shadowed(s)
  {
    if i, j :| 0 <= i < j < |s| && s[i].isArray && s[i].name <= s[j].name && s[i].name != s[j].name {
      var name := s[j].name;
      assert Match(s[i], name) && Match(s[j], name);
      var f := Find(s, name);
      assert f <= i;
      assert s[f].name <= name && s[f].name != name;
      assert !FindsLongest(s, name);
    } else {
      forall name
        ensures FindsLongest(s, name)
      {
        UnshadowedFindsLongest(s, name);
      }
    }
  }

  lemma {:induction false} UnshadowedFindsLongest(s: seq<Record>, name: string)
    requires !Shadowed(s)
    ensures FindsLongest(s, name)
  {
    var i := Find(s, name);
    forall k | 0 <= k < |s| && Match(s[k], name)
      ensures i < |s| && |s[k].name| <= |s[i].name|
    {
      assert i <= k;
      if |s[k].name| > |s[i].name| {
        assert s[i].isArray by {
          assert s[k].name <= name;
        }
        assert s[i].name <= s[k].name && s[i].name != s[k].name;
        assert Shadowed(s);
        assert false;
      }
    }
  }

  // ----- the index after an array name -----

  predicate AllDigits(s: string) {
    forall i | 0 <= i < |s| :: IsDigit(s[i])
  }

  const MaxLong: nat := 0x7fff_ffff_ffff_ffff
  const IntRange: nat := 0x1_0000_0000
  const HalfRange: nat := 0x8000_0000

  // atoi: a conversion to long that saturates, cut down to 32 bits.
  function Atoi(s: string): (r: int)
    requires AllDigits(s)
    ensures -(HalfRange as int) <= r < HalfRange
  {
    var v := if DigitsValue(s) <= MaxLong then DigitsValue(s) else MaxLong;
    var low := v % IntRange;
    if low < HalfRange then low else low - IntRange
  }

  // The result is the one 32-bit number that differs from the value by a multiple
  // of 2^32, or -1 if the value does not fit 63 bits.
  lemma AtoiWraps(s: string)
    requires AllDigits(s)
    ensures DigitsValue(s) <= 0x7fff_ffff_ffff_ffff ==>
              exists k: nat :: Atoi(s) == DigitsValue(s) - k * 0x1_0000_0000 && -0x8000_0000 <= Atoi(s) < 0x8000_0000
    ensures DigitsValue(s) > 0x7fff_ffff_ffff_ffff ==> Atoi(s) == -1
  {
    var v := DigitsValue(s);
    if v <= MaxLong {
      var q := v / IntRange;
      var k: nat := if v % IntRange < HalfRange then q else q + 1;
      assert Atoi(s) == v - k * 0x1_0000_0000;
    }
  }

  // False: something other than digits follows the name.  Index -1: nothing does.
  function IndexAfter(record: Record, name: string): (r: (bool, int)) {
    if |name| <= |record.name| then (true, -1)
    else if AllDigits(name[|record.name|..]) then (true, Atoi(name[|record.name|..]))
    else (false, 0)
  }

  method GetIndexInVarName(record: Record, name: string) returns (ok: bool, index: int)
    ensures (ok, index) == IndexAfter(record, name)
  {
    var start := |record.name|;
    if |name| <= start {
      return true, -1;
    }
    var ptr := start;
    while ptr < |name|
      invariant start <= ptr <= |name|
      invariant forall k | start <= k < ptr :: IsDigit(name[k])
    {
      if !IsDigit(name[ptr]) {
        assert name[start..][ptr - start] == name[ptr];
        return false, 0;
      }
      ptr := ptr + 1;
    }
    return true, Atoi(name[start..]);
  }

  // An array name with a decimal index resolves to that array, and to that index
  // exactly when it fits a signed 32-bit integer, unless a longer record matches too.
  lemma {:induction false} IndexedNameResolves(s: seq<Record>, r: Record, n: nat)
    requires Descending(s) && r in s && r.isArray
    ensures var name := r.name + Digits(n);
            var i := Find(s, name);
            && i < |s| && |r.name| <= |s[i].name|
            && ((forall k | 0 <= k < |s| && Match(s[k], name) :: |s[k].name| <= |r.name|) ==>
                  && s[i].name == r.name
                  && IndexAfter(s[i], name).0
                  && (IndexAfter(s[i], name).1 == n <==> n < HalfRange))
  {
    var name := r.name + Digits(n);
    var k :| 0 <= k < |s| && s[k] == r;
    assert Match(s[k], name);
    SortedFindsLongest(s, name);
    assert name[|r.name|..] == Digits(n);
    DigitsRoundTrip(n);
  }
}
