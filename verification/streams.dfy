/**
 * The two server-sent-event routes. The readings stream sends the current
 * readings on every poll; the chart stream keeps, per subscriber, a copy of
 * the curve it last sent and sends only when the current curve differs.
 * Each poll is one iteration of the route's loop, which first asks whether
 * the socket reported end-of-file.
 */
module Streams {
  import opened Wrappers
  import opened Calibration
  import opened PhState

  /** One iteration of a chart subscriber's loop: the curve it sees and the socket's eof report. */
  datatype ChartPoll = ChartPoll(curve: Curve, eof: bool)

  /** A `/ph-chart-sse` subscriber: the curve it last sent (`None` at first) and whether its loop runs. */
  datatype ChartSubscriber = ChartSubscriber(last: Option<Curve>, open: bool)

  /** A subscriber right after the connection is accepted. */
  const NewChartSubscriber: ChartSubscriber := ChartSubscriber(None, true)

  /** The subscriber after one iteration, and the curve sent in it, if any. */
  datatype ChartOut = ChartOut(sub: ChartSubscriber, sent: Option<Curve>)

  /**
   * One iteration of the chart loop: eof ends the loop; otherwise the curve
   * is sent, and remembered, exactly when it differs from the last one sent.
   */
  function ChartStep(sub: ChartSubscriber, p: ChartPoll): (r: ChartOut)
    ensures r.sent.Some? <==> sub.open && !p.eof && sub.last != Some(p.curve)
    ensures r.sent.Some? ==> r.sent.value == p.curve
    ensures r.sub.open <==> sub.open && !p.eof
    ensures r.sub.open ==> r.sub.last == Some(p.curve)
    ensures r.sent.None? ==> r.sub.last == sub.last
  {
    if !sub.open || p.eof then ChartOut(ChartSubscriber(sub.last, false), None)
    else if sub.last != Some(p.curve) then ChartOut(ChartSubscriber(Some(p.curve), true), Some(p.curve))
    else ChartOut(sub, None)
  }

  /** Everything a chart subscriber sends over a run of iterations. */
  function ChartSession(sub: ChartSubscriber, polls: seq<ChartPoll>): (r: seq<Curve>)
    ensures |r| <= |polls|
    ensures !sub.open ==> r == []
    ensures forall c :: c in r ==> c in CurvesOf(polls)
    ensures |polls| > 0 && sub.open && !polls[0].eof && sub.last != Some(polls[0].curve) ==>
      |r| > 0 && r[0] == polls[0].curve
    decreases |polls|
  {
    if |polls| == 0 then []
    else
      var o := ChartStep(sub, polls[0]);
      (if o.sent.Some? then [o.sent.value] else []) + ChartSession(o.sub, polls[1..])
  }

  /** The curves a run of iterations observes. */
  function CurvesOf(polls: seq<ChartPoll>): (cs: seq<Curve>)
    ensures |cs| == |polls|
  {
    if |polls| == 0 then [] else [polls[0].curve] + CurvesOf(polls[1..])
  }

  /** True when no iteration of the run sees end-of-file. */
  predicate Connected(polls: seq<ChartPoll>) {
    forall i :: 0 <= i < |polls| ==> !polls[i].eof
  }

  /**
   * Reference definition of change-only delivery: the observed values with
   * every run of equal neighbours collapsed to one.
   */
  function Compress<T(==)>(xs: seq<T>): seq<T>
  {
    if |xs| <= 1 then xs
    else if xs[0] == xs[1] then Compress(xs[1..])
    else [xs[0]] + Compress(xs[1..])
  }

  /** No two neighbouring values of `xs` are equal. */
  predicate NoRepeats<T(==)>(xs: seq<T>) {
    forall i :: 0 <= i < |xs| - 1 ==> xs[i] != xs[i + 1]
  }

  /** Sending from a subscriber that last sent `c` continues the compression of a run that starts with `c`. */
  lemma {:induction false} SessionAfter(c: Curve, polls: seq<ChartPoll>)
    requires Connected(polls)
    ensures [c] + ChartSession(ChartSubscriber(Some(c), true), polls) == Compress([c] + CurvesOf(polls))
    decreases |polls|
  {
    var sub := ChartSubscriber(Some(c), true);
    if |polls| == 0 {
      assert [c] + CurvesOf(polls) == [c];
    } else {
      var d := polls[0].curve;
      var rest := polls[1..];
      assert Connected(rest) by {
        forall i | 0 <= i < |rest| ensures !rest[i].eof {
          assert rest[i] == polls[i + 1];
        }
      }
      var cs := [c] + CurvesOf(polls);
      assert CurvesOf(polls) == [d] + CurvesOf(rest);
      assert cs[0] == c && cs[1] == d;
      assert cs[1..] == [d] + CurvesOf(rest);
      SessionAfter(d, rest);
      if d == c {
        assert ChartSession(sub, polls) == ChartSession(sub, rest);
        assert Compress(cs) == Compress([c] + CurvesOf(rest));
      } else {
        assert ChartSession(sub, polls) == [d] + ChartSession(ChartSubscriber(Some(d), true), rest);
        assert Compress(cs) == [c] + Compress([d] + CurvesOf(rest));
      }
    }
  }

  /**
   * While the connection stays open, a new subscriber sends exactly the
   * observed curves with repeats collapsed: the first one always, then one
   * per change.
   */
  lemma {:induction false} ChartSessionCompresses(polls: seq<ChartPoll>)
    requires Connected(polls)
    ensures ChartSession(NewChartSubscriber, polls) == Compress(CurvesOf(polls))
  {
    if |polls| > 0 {
      var c := polls[0].curve;
      var rest := polls[1..];
      assert Connected(rest) by {
        forall i | 0 <= i < |rest| ensures !rest[i].eof {
          assert rest[i] == polls[i + 1];
        }
      }
      SessionAfter(c, rest);
      assert CurvesOf(polls) == [c] + CurvesOf(rest);
      assert ChartSession(NewChartSubscriber, polls) == [c] + ChartSession(ChartSubscriber(Some(c), true), rest);
    }
  }

  /** Collapsing repeats leaves no repeats. */
  lemma {:induction false} CompressNoRepeats<T>(xs: seq<T>)
    ensures NoRepeats(Compress(xs))
    ensures |xs| > 0 ==> |Compress(xs)| > 0 && Compress(xs)[0] == xs[0]
    decreases |xs|
  {
    if |xs| > 1 {
      CompressNoRepeats(xs[1..]);
      if xs[0] != xs[1] {
        var c := Compress(xs[1..]);
        assert ([xs[0]] + c)[1..] == c;
      }
    }
  }

  /** Collapsing repeats of a run without repeats changes nothing. */
  lemma {:induction false} CompressKeepsDistinct<T>(xs: seq<T>)
    requires NoRepeats(xs)
    ensures Compress(xs) == xs
    decreases |xs|
  {
    if |xs| > 1 {
      assert NoRepeats(xs[1..]) by {
        forall i | 0 <= i < |xs[1..]| - 1 ensures xs[1..][i] != xs[1..][i + 1] {
          assert xs[1..][i] == xs[i + 1] && xs[1..][i + 1] == xs[i + 2];
        }
      }
      CompressKeepsDistinct(xs[1..]);
      assert xs[0] != xs[1];
      assert [xs[0]] + xs[1..] == xs;
    }
  }

  /** A run of copies of one value collapses to that value alone. */
  lemma {:induction false} CompressConstant<T>(xs: seq<T>, c: T)
    requires |xs| > 0
    requires forall i :: 0 <= i < |xs| ==> xs[i] == c
    ensures Compress(xs) == [c]
    decreases |xs|
  {
    if |xs| > 1 {
      assert forall i :: 0 <= i < |xs[1..]| ==> xs[1..][i] == c;
      CompressConstant(xs[1..], c);
    }
  }

  /** A subscriber that sees the same curve on `n >= 1` connected iterations sends it exactly once. */
  lemma {:induction false} IdenticalCurvesSendOnce(polls: seq<ChartPoll>, c: Curve)
    requires |polls| > 0 && Connected(polls)
    requires forall i :: 0 <= i < |polls| ==> polls[i].curve == c
    ensures ChartSession(NewChartSubscriber, polls) == [c]
  {
    ChartSessionCompresses(polls);
    CurvesOfAt(polls);
    CompressConstant(CurvesOf(polls), c);
  }

  /** A subscriber that sees a different curve on each iteration sends every one of them, in order. */
  lemma {:induction false} ChangingCurvesSendEach(polls: seq<ChartPoll>)
    requires Connected(polls)
    requires forall i :: 0 <= i < |polls| - 1 ==> polls[i].curve != polls[i + 1].curve
    ensures ChartSession(NewChartSubscriber, polls) == CurvesOf(polls)
  {
    ChartSessionCompresses(polls);
    CurvesOfAt(polls);
    CompressKeepsDistinct(CurvesOf(polls));
  }

  /** A chart subscriber never sends the same curve twice in a row. */
  lemma {:induction false} ChartNeverRepeats(polls: seq<ChartPoll>)
    requires Connected(polls)
    ensures NoRepeats(ChartSession(NewChartSubscriber, polls))
  {
    ChartSessionCompresses(polls);
    CompressNoRepeats(CurvesOf(polls));
  }

  /**
   * Once the socket reports end-of-file the loop is over: the session sends
   * exactly what it sent in the iterations before the first `eof`, and
   * nothing on that or any later iteration.
   */
  lemma {:induction false} EofEndsChartSession(sub: ChartSubscriber, polls: seq<ChartPoll>, k: nat)
    requires k < |polls| && polls[k].eof
    ensures ChartSession(sub, polls) == ChartSession(sub, polls[..k])
    decreases k
  {
    var o := ChartStep(sub, polls[0]);
    if k > 0 {
      EofEndsChartSession(o.sub, polls[1..], k - 1);
      assert polls[..k][0] == polls[0] && polls[..k][1..] == polls[1..][..k - 1];
    }
  }

  /** The `i`-th observed curve is the curve of the `i`-th iteration. */
  lemma {:induction false} CurvesOfAt(polls: seq<ChartPoll>)
    ensures forall i :: 0 <= i < |polls| ==> CurvesOf(polls)[i] == polls[i].curve
    decreases |polls|
  {
    if |polls| > 0 {
      CurvesOfAt(polls[1..]);
      assert CurvesOf(polls) == [polls[0].curve] + CurvesOf(polls[1..]);
    }
  }

  /** The event body of `/ph-sse`. */
  datatype Reading = Reading(ph: real, phAdc: Option<real>, temp: Option<real>, tdsAdc: Option<real>)

  /** The readings the globals hold. */
  function ReadingOf(s: Shared): Reading {
    Reading(s.ph, s.phAdcAvg, s.temp, s.tdsAdcAvg)
  }

  /** One iteration of a readings subscriber's loop: the globals it sees and the socket's eof report. */
  datatype ReadingsPoll = ReadingsPoll(state: Shared, eof: bool)

  /** Everything `/ph-sse` sends: the readings of every iteration until end-of-file. */
  function ReadingsSession(polls: seq<ReadingsPoll>): (r: seq<Reading>)
    ensures |r| <= |polls|
    ensures forall i :: 0 <= i < |r| ==> !polls[i].eof && r[i] == ReadingOf(polls[i].state)
    ensures |r| < |polls| ==> polls[|r|].eof
  {
    if |polls| == 0 || polls[0].eof then []
    else [ReadingOf(polls[0].state)] + ReadingsSession(polls[1..])
  }

  /**
   * The readings stream does no change detection, unlike the chart stream:
   * globals that stay the same for a run of connected iterations give one
   * identical readings event per iteration, while the chart stream sends
   * their curve once.
   */
  lemma RepeatsSentOnlyByReadings(s: Shared, polls: seq<ReadingsPoll>, chart: seq<ChartPoll>)
    requires |polls| > 0 && forall i :: 0 <= i < |polls| ==> polls[i] == ReadingsPoll(s, false)
    requires |chart| == |polls| && Connected(chart)
    requires forall i :: 0 <= i < |chart| ==> chart[i].curve == s.chartPoints
    ensures ReadingsSession(polls) == seq(|polls|, _ => ReadingOf(s))
    ensures ChartSession(NewChartSubscriber, chart) == [s.chartPoints]
  {
    IdenticalCurvesSendOnce(chart, s.chartPoints);
  }

  /**
   * The readings stream stops at the first end-of-file: it sends exactly
   * what the iterations before it sent, and nothing after.
   */
  lemma {:induction false} ReadingsStopAtEof(polls: seq<ReadingsPoll>, k: nat)
    requires k < |polls| && polls[k].eof
    ensures ReadingsSession(polls) == ReadingsSession(polls[..k])
    decreases k
  {
    if k > 0 && !polls[0].eof {
      ReadingsStopAtEof(polls[1..], k - 1);
      assert polls[..k][0] == polls[0] && polls[..k][1..] == polls[1..][..k - 1];
    }
  }
}
