/** Whether parts of a file overlap, decided by sorting them and looking at neighbours. */
module WaxSpans {
  import opened WaxFormat

  // ---- overlap by sorting ----

  predicate Before(a: Span, b: Span) {
    a.start < b.start || (a.start == b.start && a.end <= b.end)
  }

  function Insert(x: Span, s: seq<Span>): seq<Span> {
    if s == [] || Before(x, s[0]) then [x] + s else [s[0]] + Insert(x, s[1..])
  }

  function Sorted(s: seq<Span>): seq<Span> {
    if s == [] then [] else Insert(s[0], Sorted(s[1..]))
  }

  predicate Ordered(s: seq<Span>) {
    forall k :: 0 <= k < |s| - 1 ==> Before(s[k], s[k + 1])
  }

  /** Apart from all of `s`; and all of `s` apart from each other. */
  predicate AllApart(x: Span, s: seq<Span>) {
    s == [] || (Apart(x, s[0]) && AllApart(x, s[1..]))
  }

  predicate EachApart(s: seq<Span>) {
    s == [] || (AllApart(s[0], s[1..]) && EachApart(s[1..]))
  }

  lemma {:induction false} AllApartMeans(x: Span, s: seq<Span>)
    ensures AllApart(x, s) <==> forall k :: 0 <= k < |s| ==> Apart(x, s[k])
  {
    if s == [] {
    } else {
      AllApartMeans(x, s[1..]);
      if AllApart(x, s[1..]) && Apart(x, s[0]) {
        forall k | 0 <= k < |s| ensures Apart(x, s[k]) {
          if k > 0 {
            assert s[k] == s[1..][k - 1];
          }
        }
      }
      if forall k :: 0 <= k < |s| ==> Apart(x, s[k]) {
        forall k | 0 <= k < |s[1..]| ensures Apart(x, s[1..][k]) {
          assert s[1..][k] == s[k + 1];
        }
      }
    }
  }

  lemma {:induction false} EachApartMeans(s: seq<Span>)
    ensures EachApart(s) <==> PairwiseApart(s)
  {
    if s == [] {
    } else {
      EachApartMeans(s[1..]);
      AllApartMeans(s[0], s[1..]);
      if EachApart(s) {
        forall i, j | 0 <= i < j < |s| ensures Apart(s[i], s[j]) {
          assert s[j] == s[1..][j - 1];
          if i > 0 {
            assert s[i] == s[1..][i - 1];
          }
        }
      }
      if PairwiseApart(s) {
        forall i, j | 0 <= i < j < |s[1..]| ensures Apart(s[1..][i], s[1..][j]) {
          assert Apart(s[i + 1], s[j + 1]);
        }
        forall k | 0 <= k < |s[1..]| ensures Apart(s[0], s[1..][k]) {
          assert Apart(s[0], s[k + 1]);
        }
      }
    }
  }

  lemma {:induction false} InsertApart(y: Span, x: Span, s: seq<Span>)
    ensures AllApart(y, Insert(x, s)) <==> Apart(y, x) && AllApart(y, s)
    decreases |s|
  {
    if s == [] || Before(x, s[0]) {
    } else {
      InsertApart(y, x, s[1..]);
    }
  }

  lemma {:induction false} InsertEachApart(x: Span, s: seq<Span>)
    ensures EachApart(Insert(x, s)) <==> AllApart(x, s) && EachApart(s)
    decreases |s|
  {
    if s == [] || Before(x, s[0]) {
    } else {
      InsertEachApart(x, s[1..]);
      InsertApart(s[0], x, s[1..]);
      assert Apart(s[0], x) <==> Apart(x, s[0]);
    }
  }

  lemma {:induction false} InsertKeepsOrder(x: Span, s: seq<Span>)
    requires Ordered(s)
    ensures Ordered(Insert(x, s)) && |Insert(x, s)| == |s| + 1
    ensures Insert(x, s)[0] == x || (s != [] && Insert(x, s)[0] == s[0])
    decreases |s|
  {
    if s == [] || Before(x, s[0]) {
    } else {
      forall k | 0 <= k < |s[1..]| - 1 ensures Before(s[1..][k], s[1..][k + 1]) {
        assert Before(s[k + 1], s[k + 2]);
      }
      InsertKeepsOrder(x, s[1..]);
      assert s[1..] != [] ==> Before(s[0], s[1]);
    }
  }

  lemma {:induction false} AllInside(s: seq<Span>, x: Span)
    requires forall k :: 0 <= k < |s| ==> s[k].start < s[k].end
    requires x.start < x.end
    ensures forall k :: 0 <= k < |Insert(x, s)| ==> Insert(x, s)[k].start < Insert(x, s)[k].end
    decreases |s|
  {
    if s == [] || Before(x, s[0]) {
    } else {
      AllInside(s[1..], x);
    }
  }

  /** Sorting orders the spans and does not change whether they are apart. */
  lemma {:induction false} SortedIsSame(s: seq<Span>)
    requires forall k :: 0 <= k < |s| ==> s[k].start < s[k].end
    ensures Ordered(Sorted(s)) && |Sorted(s)| == |s| && (EachApart(Sorted(s)) <==> EachApart(s))
    ensures forall k :: 0 <= k < |Sorted(s)| ==> Sorted(s)[k].start < Sorted(s)[k].end
    ensures forall y :: AllApart(y, Sorted(s)) <==> AllApart(y, s)
  {
    if s == [] {
    } else {
      SortedIsSame(s[1..]);
      InsertKeepsOrder(s[0], Sorted(s[1..]));
      InsertEachApart(s[0], Sorted(s[1..]));
      AllInside(Sorted(s[1..]), s[0]);
      forall y ensures AllApart(y, Sorted(s)) <==> AllApart(y, s) {
        InsertApart(y, s[0], Sorted(s[1..]));
      }
    }
  }

  predicate NeighboursApart(s: seq<Span>) {
    forall k :: 0 <= k < |s| - 1 ==> s[k].end <= s[k + 1].start
  }

  lemma {:induction false} NeighboursReach(s: seq<Span>, i: nat, j: nat)
    requires NeighboursApart(s) && i < j < |s|
    requires forall k :: 0 <= k < |s| ==> s[k].start < s[k].end
    ensures s[i].end <= s[j].start
  {
    if i + 1 == j {
    } else {
      NeighboursReach(s, i, j - 1);
      assert s[j - 1].end <= s[j].start;
    }
  }

  /** For sorted non-empty spans it is enough to look at neighbours. */
  lemma NeighboursDecide(s: seq<Span>)
    requires Ordered(s) && forall k :: 0 <= k < |s| ==> s[k].start < s[k].end
    ensures NeighboursApart(s) <==> PairwiseApart(s)
  {
    if NeighboursApart(s) {
      forall i, j | 0 <= i < j < |s| ensures Apart(s[i], s[j]) {
        NeighboursReach(s, i, j);
      }
    }
    if PairwiseApart(s) {
      forall k | 0 <= k < |s| - 1 ensures s[k].end <= s[k + 1].start {
        assert Apart(s[k], s[k + 1]) && Before(s[k], s[k + 1]);
      }
    }
  }

  /** Sorting, and then looking at neighbours, decides. */
  lemma SortedDecides(spans: seq<Span>)
    requires forall k :: 0 <= k < |spans| ==> spans[k].start < spans[k].end
    ensures NeighboursApart(Sorted(spans)) <==> PairwiseApart(spans)
  {
    hide Sorted, Ordered, EachApart, PairwiseApart, NeighboursApart;
    SortedIsSame(spans);
    EachApartMeans(spans);
    EachApartMeans(Sorted(spans));
    NeighboursDecide(Sorted(spans));
  }

  method SpansApart(spans: seq<Span>) returns (ok: bool)
    requires forall k :: 0 <= k < |spans| ==> spans[k].start < spans[k].end
    ensures ok <==> PairwiseApart(spans)
  {
    hide Sorted, PairwiseApart;
    SortedDecides(spans);
    var sorted := Sorted(spans);
    var k := 1;
    while k < |sorted|
      invariant 1 <= k && forall j :: 0 <= j < k - 1 && j < |sorted| - 1 ==> sorted[j].end <= sorted[j + 1].start
    {
      if sorted[k].start < sorted[k - 1].end {
        assert !NeighboursApart(sorted);
        return false;
      }
      k := k + 1;
    }
    return true;
  }
}
