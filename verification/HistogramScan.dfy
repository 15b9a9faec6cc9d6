// Which window each sample lands in when recorders keep running while the single reader scans the
// counters one at a time.

module HistogramScan {
  import opened Words
  import opened Histogram
  import opened HistogramWindows

  // A recorder's increment, the reader's next bucket load, and the end of its scan.
  datatype Event = Record(ns: u64) | Scan | Close

  // Samples of bucket `at` that no window has taken yet now belong to window `w`.
  function Take(samples: seq<u64>, tags: seq<Option<nat>>, at: nat, w: nat): (after: seq<Option<nat>>)
    requires |tags| == |samples|
    ensures |after| == |tags|
    ensures forall k :: 0 <= k < |tags| ==>
              after[k] == if tags[k].None? && BucketOf(samples[k]) == at then Some(w) else tags[k]
  {
    if tags == [] then []
    else
      var n := |tags| - 1;
      Take(samples[..n], tags[..n], at, w)
      + [if tags[n].None? && BucketOf(samples[n]) == at then Some(w) else tags[n]]
  }

  // `at` is the reader's position in the open window's scan and `counts` what it has taken so far.
  // `samples` lists every increment in order and `tags` the window that took each.
  datatype State = State(buckets: seq<nat>, prev: seq<nat>, at: nat, counts: seq<nat>, windows: seq<seq<nat>>,
                         samples: seq<u64>, tags: seq<Option<nat>>) {
    ghost predicate Shaped() {
      && |buckets| == |prev| == HIST_BUCKETS && at <= HIST_BUCKETS && |counts| == at
      && |tags| == |samples| && forall w :: 0 <= w < |windows| ==> |windows[w]| == HIST_BUCKETS
    }

    ghost predicate Enabled(e: Event) {
      Shaped() && match e case Record(_) => true case Scan => at < HIST_BUCKETS case Close => at == HIST_BUCKETS
    }

    ghost function Next(e: Event): (s: State)
      requires Enabled(e)
      ensures s.Shaped()
    {
      match e
      case Record(ns) =>
        var i := BucketOf(ns);
        this.(buckets := buckets[i := buckets[i] + 1], samples := samples + [ns], tags := tags + [None])
      case Scan =>
        var cur := buckets[at];
        var taken := if cur >= prev[at] then cur - prev[at] else 0;
        this.(prev := prev[at := cur], at := at + 1, counts := counts + [taken], tags := Take(samples, tags, at, |windows|))
      case Close =>
        this.(at := 0, counts := [], windows := windows + [counts])
    }
  }

  function Opening(): State {
    State(seq(HIST_BUCKETS, _ => 0), seq(HIST_BUCKETS, _ => 0), 0, [], [], [], [])
  }

  ghost predicate IsRun(run: seq<State>, events: seq<Event>) {
    && |run| == |events| + 1 && run[0] == Opening()
    && forall k :: 0 <= k < |events| ==> run[k].Enabled(events[k]) && run[k + 1] == run[k].Next(events[k])
  }

  // Samples of bucket `i` bearing tag `t`.
  function Tagged(samples: seq<u64>, tags: seq<Option<nat>>, i: nat, t: Option<nat>): nat
    requires |samples| == |tags|
  {
    if samples == [] then 0
    else
      var n := |samples| - 1;
      Tagged(samples[..n], tags[..n], i, t) + if BucketOf(samples[n]) == i && tags[n] == t then 1 else 0
  }

  // What the open window has taken from bucket `i`.
  function OpenCount(s: State, i: nat): nat
    requires |s.counts| == s.at
  {
    if i < s.at then s.counts[i] else 0
  }

  ghost predicate Accounted(s: State) {
    && s.Shaped()
    && (forall i :: 0 <= i < HIST_BUCKETS ==> BucketAccounted(s, i))
    && (forall k :: 0 <= k < |s.tags| && s.tags[k].Some? ==> s.tags[k].value <= |s.windows|)
  }

  ghost predicate BucketAccounted(s: State, i: nat)
    requires s.Shaped() && i < HIST_BUCKETS
  {
    && s.buckets[i] == s.prev[i] + Tagged(s.samples, s.tags, i, None)
    && OpenCount(s, i) == Tagged(s.samples, s.tags, i, Some(|s.windows|))
    && forall w :: 0 <= w < |s.windows| ==> s.windows[w][i] == Tagged(s.samples, s.tags, i, Some(w))
  }

  lemma {:induction false} TaggedAfterScan(samples: seq<u64>, tags: seq<Option<nat>>, after: seq<Option<nat>>,
                                           at: nat, w: nat, i: nat, t: Option<nat>)
    requires |samples| == |tags| == |after|
    requires forall k :: 0 <= k < |tags| ==>
               after[k] == if tags[k].None? && BucketOf(samples[k]) == at then Some(w) else tags[k]
    ensures Tagged(samples, after, i, t)
         == if i != at then Tagged(samples, tags, i, t)
            else if t == None then 0
            else if t == Some(w) then Tagged(samples, tags, i, t) + Tagged(samples, tags, i, None)
            else Tagged(samples, tags, i, t)
  {
    hide BucketOf;
    if samples != [] {
      var n := |samples| - 1;
      TaggedAfterScan(samples[..n], tags[..n], after[..n], at, w, i, t);
    }
  }

  lemma {:induction false} NoneTagged(samples: seq<u64>, tags: seq<Option<nat>>, i: nat, w: nat)
    requires |samples| == |tags|
    requires forall k :: 0 <= k < |tags| && tags[k].Some? ==> tags[k].value < w
    ensures Tagged(samples, tags, i, Some(w)) == 0
  {
    hide BucketOf;
    if samples != [] {
      var n := |samples| - 1;
      assert tags[n].Some? ==> tags[n].value < w;
      NoneTagged(samples[..n], tags[..n], i, w);
    }
  }

  lemma {:induction false} NextAccounts(s: State, e: Event)
    requires Accounted(s) && s.Enabled(e)
    ensures Accounted(s.Next(e))
  {
    hide BucketOf;
    var n := s.Next(e);
    forall i | 0 <= i < HIST_BUCKETS ensures BucketAccounted(n, i) {
      assert BucketAccounted(s, i);
      match e
      case Record(ns) =>
        assert n.samples[..|s.samples|] == s.samples && n.tags[..|s.tags|] == s.tags;
      case Scan => ScanAccounts(s, i);
      case Close => CloseAccounts(s, i);
    }
  }

  lemma ScanAccounts(s: State, i: nat)
    requires Accounted(s) && s.Enabled(Scan) && i < HIST_BUCKETS
    ensures BucketAccounted(s.Next(Scan), i)
  {
    hide BucketOf;
    assert BucketAccounted(s, i);
    var n := s.Next(Scan);
    assert n.tags == Take(s.samples, s.tags, s.at, |s.windows|) && n.samples == s.samples && n.windows == s.windows;
    hide Take, Tagged;
    TaggedAfterScan(s.samples, s.tags, n.tags, s.at, |s.windows|, i, None);
    TaggedAfterScan(s.samples, s.tags, n.tags, s.at, |s.windows|, i, Some(|s.windows|));
    forall w | 0 <= w < |s.windows| ensures n.windows[w][i] == Tagged(n.samples, n.tags, i, Some(w)) {
      TaggedAfterScan(s.samples, s.tags, n.tags, s.at, |s.windows|, i, Some(w));
    }
  }

  lemma CloseAccounts(s: State, i: nat)
    requires Accounted(s) && s.Enabled(Close) && i < HIST_BUCKETS
    ensures BucketAccounted(s.Next(Close), i)
  {
    hide BucketOf;
    assert BucketAccounted(s, i);
    var n := s.Next(Close);
    NoneTagged(s.samples, s.tags, i, |s.windows| + 1);
    forall w | 0 <= w < |n.windows| ensures n.windows[w][i] == Tagged(n.samples, n.tags, i, Some(w)) {
      assert w < |s.windows| ==> n.windows[w] == s.windows[w];
    }
  }

  // Under every interleaving, each closed window counts exactly the samples it took, every sample
  // is taken by at most one window, and what no window has taken is still in the counters.
  lemma {:induction false} EverySampleInOneWindow(run: seq<State>, events: seq<Event>, k: nat)
    requires IsRun(run, events) && k <= |events|
    ensures Accounted(run[k])
  {
    if k > 0 {
      EverySampleInOneWindow(run, events, k - 1);
      NextAccounts(run[k - 1], events[k - 1]);
    } else {
      assert forall i :: 0 <= i < HIST_BUCKETS ==> BucketAccounted(Opening(), i);
    }
  }

  // Once a window has taken a sample, no later step gives it to another.
  lemma {:induction false} TagsAreFinal(run: seq<State>, events: seq<Event>, j: nat, k: nat, m: nat)
    requires IsRun(run, events) && j <= k <= |events|
    requires m < |run[j].samples| && run[j].Shaped() && run[j].tags[m].Some?
    ensures run[k].Shaped() && m < |run[k].samples| && run[k].samples[m] == run[j].samples[m]
    ensures run[k].tags[m] == run[j].tags[m]
    decreases k - j
  {
    hide BucketOf;
    if j < k {
      TagsAreFinal(run, events, j, k - 1, m);
      assert run[k] == run[k - 1].Next(events[k - 1]);
    }
  }

  // A sample is taken for good by the first scan of its bucket after it: from then on it belongs to
  // the window open at that scan, unless an earlier window had it.
  lemma {:induction false} ScanTakesForGood(run: seq<State>, events: seq<Event>, j: nat, k: nat, m: nat)
    requires IsRun(run, events) && j < k <= |events| && events[j] == Scan
    requires run[j].Shaped() && m < |run[j].samples| && BucketOf(run[j].samples[m]) == run[j].at
    ensures run[k].Shaped() && m < |run[k].samples| && run[k].tags[m].Some?
    ensures run[k].tags[m] == if run[j].tags[m].Some? then run[j].tags[m] else Some(|run[j].windows|)
  {
    hide BucketOf;
    assert run[j].Enabled(Scan) && run[j + 1] == run[j].Next(Scan);
    TagsAreFinal(run, events, j + 1, k, m);
  }

  // ---- what a window closed under interleaving reports ------------------------------------------

  // The samples window `w` took, in the order they were recorded.
  function SamplesOf(samples: seq<u64>, tags: seq<Option<nat>>, w: nat): seq<u64>
    requires |samples| == |tags|
  {
    if samples == [] then []
    else
      var n := |samples| - 1;
      SamplesOf(samples[..n], tags[..n], w) + if tags[n] == Some(w) then [samples[n]] else []
  }

  lemma {:induction false} CountOfSamples(samples: seq<u64>, tags: seq<Option<nat>>, w: nat, i: nat)
    requires |samples| == |tags|
    ensures CountIn(SamplesOf(samples, tags, w), i) == Tagged(samples, tags, i, Some(w))
  {
    hide BucketOf;
    if samples != [] {
      var n := |samples| - 1;
      CountOfSamples(samples[..n], tags[..n], w, i);
      var before := SamplesOf(samples[..n], tags[..n], w);
      if tags[n] == Some(w) {
        assert (before + [samples[n]])[..|before|] == before;
      } else {
        assert before + [] == before;
      }
    }
  }

  // Every window closed while recorders were running is the histogram of the samples it took, so its
  // report describes exactly those samples: their count, the midpoint of the bucket of each percentile's
  // order statistic, and their sum within one part in thirty-two.
  lemma {:induction false} ClosedWindowDescribesItsSamples(run: seq<State>, events: seq<Event>, k: nat, w: nat, min: u64, max: u64)
    requires IsRun(run, events) && k <= |events| && w < |run[k].windows|
    ensures run[k].Shaped() && IsHistogram(run[k].windows[w], SamplesOf(run[k].samples, run[k].tags, w))
    ensures Describes(WindowOf(run[k].windows[w], min, max), SamplesOf(run[k].samples, run[k].tags, w))
  {
    EverySampleInOneWindow(run, events, k);
    var s := run[k];
    var mine := SamplesOf(s.samples, s.tags, w);
    hide BucketOf, IsRun, Describes, WindowOf;
    forall i | 0 <= i < HIST_BUCKETS ensures s.windows[w][i] == CountIn(mine, i) {
      assert BucketAccounted(s, i);
      CountOfSamples(s.samples, s.tags, w, i);
    }
    WindowDescribesSamples(s.windows[w], mine, min, max);
  }
}
