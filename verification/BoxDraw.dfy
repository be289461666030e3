/** How fair the draw of a blind box is: which random indices pick which NFT, and how many hash words lead there. */
module BoxDraw {
  import opened Eosio
  import opened BoxModel
  import SafeMath

  // ---------- The prefix-sum loop ----------

  lemma {:induction false} TotalOfPart(box: Box, i: nat)
    requires i <= |box|
    ensures Total(box[..i]) <= Total(box)
  {
    if i < |box| {
      TotalOfPart(box[..|box| - 1], i);
      assert box[..|box| - 1][..i] == box[..i];
    } else {
      assert box[..i] == box;
    }
  }

  /** Every index from 1 to the total stops the loop on an entry, and on exactly the one whose range of running totals it lies in. */
  lemma {:induction false} PickStops(box: Box, r: nat)
    requires 1 <= r <= Total(box) < TWO_64
    ensures Pick(box, r) < |box|
    ensures Total(box[..Pick(box, r)]) < r <= Total(box[..Pick(box, r) + 1])
  {
    var n := |box| - 1;
    var init := box[..n];
    if r <= Total(init) {
      PickStops(init, r);
      var i := Pick(init, r);
      assert init[..i] == box[..i] && init[..i + 1] == box[..i + 1];
    } else {
      PickRunsOff(init, r);
      assert box[..n + 1] == box;
    }
  }

  lemma {:induction false} PickRunsOff(box: Box, r: nat)
    requires Total(box) < r && Total(box) < TWO_64
    ensures Pick(box, r) == |box|
  {
    if box != [] {
      PickRunsOff(box[..|box| - 1], r);
    }
  }

  lemma {:induction false} TotalMonotone(box: Box, i: nat, j: nat)
    requires i <= j <= |box|
    ensures Total(box[..i]) <= Total(box[..j])
  {
    TotalOfPart(box[..j], i);
    assert box[..j][..i] == box[..i];
  }

  /** An index picks entry `i` if and only if it lies between the running totals before and after that entry. */
  lemma PickIff(box: Box, r: nat, i: nat)
    requires 1 <= r <= Total(box) < TWO_64 && i < |box|
    ensures Pick(box, r) == i <==> Total(box[..i]) < r <= Total(box[..i + 1])
  {
    PickStops(box, r);
    var k := Pick(box, r);
    if k < i {
      TotalMonotone(box, k + 1, i);
    } else if i < k {
      TotalMonotone(box, i + 1, k);
    }
  }

  // ---------- Counting ----------

  predicate Between(lo: nat, r: nat, hi: nat) { lo < r <= hi }

  ghost function Interval(lo: nat, hi: nat): set<nat> {
    set r: nat | r <= hi && Between(lo, r, hi)
  }

  /** The indices from 1 to the total that pick entry `i`. */
  ghost function Indices(box: Box, i: nat): set<nat> {
    set r: nat | 1 <= r <= Total(box) && Pick(box, r) == i
  }

  lemma {:induction false} IntervalSize(lo: nat, hi: nat)
    requires lo <= hi
    ensures |Interval(lo, hi)| == hi - lo
    decreases hi
  {
    if lo < hi {
      IntervalSize(lo, hi - 1);
      assert Interval(lo, hi) == Interval(lo, hi - 1) + {hi};
    } else {
      assert Interval(lo, hi) == {};
    }
  }

  lemma EntrySpan(box: Box, i: nat)
    requires i < |box|
    ensures Total(box[..i + 1]) == Total(box[..i]) + box[i].amount <= Total(box)
  {
    assert box[..i + 1][..i] == box[..i];
    TotalOfPart(box, i + 1);
  }

  /** Entry `i` is picked by exactly as many of the indices 1 to the total as it holds NFTs. */
  lemma IndicesPerEntry(box: Box, i: nat)
    requires Total(box) < TWO_64 && i < |box|
    ensures |Indices(box, i)| == box[i].amount
  {
    hide Pick, Total;
    var lo, hi := Total(box[..i]), Total(box[..i + 1]);
    EntrySpan(box, i);
    forall r: nat | 1 <= r <= Total(box)
      ensures Pick(box, r) == i <==> Between(lo, r, hi)
    {
      PickIff(box, r, i);
    }
    assert Indices(box, i) == Interval(lo, hi);
    IntervalSize(lo, hi);
  }

  // ---------- Rejection sampling ----------

  /** The last step of `_rand`. */
  function Outcome(w: nat, range: nat): nat
    requires range > 0
  {
    w % range + 1
  }

  /** The words below `n` that map to outcome `k`. */
  ghost function WordsBelow(range: nat, k: nat, n: nat): set<nat>
    requires range > 0
  {
    set w: nat | w < n && Outcome(w, range) == k
  }

  /** The accepted words that map to outcome `k`. */
  ghost function Words(range: nat, k: nat): set<nat>
    requires range > 0
  {
    set w: nat | w <= Limit(range) && Outcome(w, range) == k
  }

  lemma ResidueInBlock(range: nat, j: nat, w: nat)
    requires range > 0 && range * j <= w < range * (j + 1)
    ensures w % range == w - range * j
  {
    SafeMath.QuotientIs(w, range, j);
  }

  /** Each block of `range` words holds one word per outcome. */
  lemma {:induction false} WordsInBlocks(range: nat, k: nat, j: nat)
    requires 1 <= k <= range
    ensures |WordsBelow(range, k, range * j)| == j
  {
    if j == 0 {
      assert WordsBelow(range, k, 0) == {};
    } else {
      WordsInBlocks(range, k, j - 1);
      var start := range * (j - 1);
      var it := start + k - 1;
      forall w: nat | start <= w < range * j
        ensures Outcome(w, range) == k <==> w == it
      {
        ResidueInBlock(range, j - 1, w);
      }
      assert start <= it < range * j;
      assert WordsBelow(range, k, range * j) == WordsBelow(range, k, start) + {it};
    }
  }

  lemma LimitIsMultiple(range: nat)
    requires range > 0
    ensures Limit(range) == range * (MAX_WORD / range) && Limit(range) % range == 0
  {
    var q := MAX_WORD / range;
    SafeMath.QuotientIs(range * q, range, q);
  }

  /** Of the words that `_rand` accepts, outcome 1 has one more than every other outcome: the acceptance limit is inclusive. */
  lemma WordsPerOutcome(range: nat, k: nat)
    requires 1 <= k <= range
    ensures |Words(range, k)| == MAX_WORD / range + if k == 1 then 1 else 0
  {
    var limit := Limit(range);
    LimitIsMultiple(range);
    WordsInBlocks(range, k, MAX_WORD / range);
    if k == 1 {
      assert Words(range, k) == WordsBelow(range, k, limit) + {limit};
    } else {
      assert Words(range, k) == WordsBelow(range, k, limit);
    }
  }

  /** The accepted words whose outcome lies above `lo` and up to `hi`. */
  ghost function WordsBetween(range: nat, lo: nat, hi: nat): set<nat>
    requires range > 0
  {
    set w: nat | w <= Limit(range) && lo < Outcome(w, range) <= hi
  }

  lemma {:induction false} WordsPerInterval(range: nat, lo: nat, hi: nat)
    requires lo <= hi <= range && range > 0
    ensures |WordsBetween(range, lo, hi)| == (hi - lo) * (MAX_WORD / range) + if lo == 0 < hi then 1 else 0
    decreases hi
  {
    if lo == hi {
      assert WordsBetween(range, lo, hi) == {};
    } else {
      WordsPerInterval(range, lo, hi - 1);
      WordsPerOutcome(range, hi);
      assert WordsBetween(range, lo, hi) == WordsBetween(range, lo, hi - 1) + Words(range, hi);
      assert WordsBetween(range, lo, hi - 1) !! Words(range, hi);
      assert (hi - lo) * (MAX_WORD / range) == (hi - 1 - lo) * (MAX_WORD / range) + MAX_WORD / range;
    }
  }

  /** The accepted words that make a draw from the box take entry `i`. */
  ghost function Drawing(box: Box, i: nat): set<nat>
    requires Total(box) > 0
  {
    set w: nat | w <= Limit(Total(box)) && Pick(box, Outcome(w, Total(box))) == i
  }

  /** The whole draw: an entry holding `a` of the `n` NFTs left is drawn by a * floor((2^64 - 1) / n) of the accepted hash words,
      and the entry with the smallest id by one word more. */
  lemma WordsPerEntry(box: Box, i: nat)
    requires 0 < Total(box) < TWO_64 && i < |box| && box[i].amount > 0
    ensures |Drawing(box, i)| == box[i].amount * (MAX_WORD / Total(box)) + if Total(box[..i]) == 0 then 1 else 0
  {
    hide Total, Pick, Limit;
    var n := Total(box);
    var lo, hi := Total(box[..i]), Total(box[..i + 1]);
    EntrySpan(box, i);
    forall w: nat
      ensures Pick(box, Outcome(w, n)) == i <==> lo < Outcome(w, n) <= hi
    {
      PickIff(box, Outcome(w, n), i);
    }
    hide Outcome;
    assert Drawing(box, i) == WordsBetween(n, lo, hi);
    WordsPerInterval(n, lo, hi);
  }

  /** Whatever words it has to reject first, `_rand` answers from 1 to `range`, with an accepted word; it has no answer only if
      it has rejected them all. */
  lemma {:induction false} RandAnswers(words: seq<U64>, range: nat)
    requires range > 0
    ensures Rand(words, range).Abort? <==> forall i | 0 <= i < |words| :: words[i] > Limit(range)
    ensures Rand(words, range).Some? ==> 1 <= Rand(words, range).value <= range
  {
    if words != [] && words[0] > Limit(range) {
      RandAnswers(words[1..], range);
      assert forall i | 1 <= i < |words| :: words[i] == words[1..][i - 1];
    }
  }
}
