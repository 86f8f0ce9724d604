/** The arithmetic behind the leadership report's charts: where the labels of a gauge
    go, how a time series is resampled for the line chart, the segments of the pause
    chart, the points of the focus-area spider plot and the text under the bars. The
    drawing itself is not modelled; only the numbers and texts handed to it are. */
module Graphing {
  import opened Common
  import opened Text
  import opened OrderedDict
  import opened PyValue

  // Bar charts

  /** `"\n".join(category.split(" "))`: the label under a bar has one word per line. */
  function BarLabel(category: string): (r: string)
    ensures |r| == |category|
  {
    ReplaceByChar(category, ' ', '\n');
    JoinWith("\n", SplitOn(category, " "))
  }

  /** Each space of the category becomes a line break and nothing else changes. */
  lemma BarLabelBreaksAtSpaces(category: string)
    ensures BarLabel(category) == ReplaceChar(category, ' ', '\n')
    ensures forall i :: 0 <= i < |category| ==> BarLabel(category)[i] == if category[i] == ' ' then '\n' else category[i]
  {
    ReplaceByChar(category, ' ', '\n');
  }

  // Gauges

  /** Where the arrow of the measured value points, as a fraction of the figure's
      width: the bar spans 0.1 to 0.9, and a value off the bar is pinned to its nearer
      end. A bar of zero width with the value on it divides by zero. */
  function AnnotationPosition(avg: real, barMin: real, barMax: real): (r: Result<real>)
    ensures r.Err? <==> avg == barMin && barMax == barMin
    ensures r.Err? ==> r.error == ZeroDivisionError
    ensures avg < barMin ==> r == Ok(0.1)
    ensures barMin <= barMax < avg ==> r == Ok(0.9)
  {
    if avg < barMin then Ok(0.1)
    else if avg > barMax then Ok(0.9)
    else if barMax == barMin then Err(ZeroDivisionError)
    else Ok(0.1 + (avg - barMin) / (barMax - barMin) * 0.8)
  }

  /** The position never leaves the bar. */
  lemma AnnotationPositionBounded(avg: real, barMin: real, barMax: real)
    requires AnnotationPosition(avg, barMin, barMax).Ok?
    ensures 0.1 <= AnnotationPosition(avg, barMin, barMax).value <= 0.9
  {
    if barMin <= avg <= barMax && barMin != barMax {
      UnitFraction(avg - barMin, barMax - barMin);
    }
  }

  lemma UnitFraction(x: real, w: real)
    requires 0.0 <= x <= w && 0.0 < w
    ensures 0.0 <= x / w <= 1.0
  {
    var f := x / w;
    assert f * w == x;
  }

  /** On a bar of positive width a higher value never points further left. */
  lemma AnnotationPositionMonotone(a: real, b: real, barMin: real, barMax: real)
    requires barMin < barMax && a <= b
    ensures AnnotationPosition(a, barMin, barMax).value <= AnnotationPosition(b, barMin, barMax).value
  {
    AnnotationPositionBounded(a, barMin, barMax);
    AnnotationPositionBounded(b, barMin, barMax);
    if barMin <= a && b <= barMax {
      var w := barMax - barMin;
      assert (a - barMin) / w <= (b - barMin) / w by {
        assert (b - barMin) / w - (a - barMin) / w == (b - a) / w;
      }
    }
  }

  /** The formula meets the pinned ends: the ends of the bar point at 0.1 and 0.9. */
  lemma AnnotationPositionContinuous(barMin: real, barMax: real)
    requires barMin < barMax
    ensures AnnotationPosition(barMin, barMin, barMax) == Ok(0.1)
    ensures AnnotationPosition(barMax, barMin, barMax) == Ok(0.9)
  {
    assert (barMax - barMin) / (barMax - barMin) == 1.0;
  }

  /** The positions of the texts of a gauge: the arrow of the measured value, the
      labels of the low, middle and high bands, and the ticks at the ends of the
      middle band. */
  datatype GaugeLayout = GaugeLayout(value: real, low: real, middle: real, high: real, middleLow: real, middleHigh: real)

  /** `0.1 + 0.8 * (x - barMin) / (barMax - barMin)`: a value's place on the bar. */
  function OnBar(x: real, barMin: real, barMax: real): real
    requires barMin != barMax
  {
    0.1 + 0.8 * (x - barMin) / (barMax - barMin)
  }

  /** The text positions of `generate_color_bar_plot`; every band label divides by
      the width of the bar, so a bar of zero width raises. */
  function Layout(avg: real, midMin: real, midMax: real, barMin: real, barMax: real): (r: Result<GaugeLayout>)
    ensures r.Err? <==> barMin == barMax
    ensures r.Err? ==> r.error == ZeroDivisionError
    ensures r.Ok? ==> Ok(r.value.value) == AnnotationPosition(avg, barMin, barMax)
  {
    if barMin == barMax then Err(ZeroDivisionError)
    else
      var w := barMax - barMin;
      Ok(GaugeLayout(
        AnnotationPosition(avg, barMin, barMax).value,
        0.1 + 0.8 * (midMin - barMin) / 2.0 / w,
        0.1 + 0.8 * ((midMax + midMin) / 2.0 - barMin) / w,
        0.1 + 0.8 * ((barMax + midMax) / 2.0 - barMin) / w,
        0.1 + 0.8 * (midMin - barMin) / w,
        0.1 + 0.8 * (midMax - barMin) / w))
  }

  /** Each band label sits at the place of its band's midpoint, and the ticks at the
      places of the middle band's ends. */
  lemma LayoutAtMidpoints(avg: real, midMin: real, midMax: real, barMin: real, barMax: real)
    requires barMin != barMax
    ensures var g := Layout(avg, midMin, midMax, barMin, barMax).value;
      && g.low == OnBar((barMin + midMin) / 2.0, barMin, barMax)
      && g.middle == OnBar((midMin + midMax) / 2.0, barMin, barMax)
      && g.high == OnBar((midMax + barMax) / 2.0, barMin, barMax)
      && g.middleLow == OnBar(midMin, barMin, barMax)
      && g.middleHigh == OnBar(midMax, barMin, barMax)
  {
    var w := barMax - barMin;
    assert 0.8 * (midMin - barMin) / 2.0 / w == 0.8 * ((barMin + midMin) / 2.0 - barMin) / w;
  }

  /** On a proper gauge the texts come in order along the bar and stay on it. */
  lemma LayoutOrdered(avg: real, midMin: real, midMax: real, barMin: real, barMax: real)
    requires barMin <= midMin <= midMax <= barMax && barMin < barMax
    ensures var g := Layout(avg, midMin, midMax, barMin, barMax).value;
      0.1 <= g.low <= g.middleLow <= g.middle <= g.middleHigh <= g.high <= 0.9
  {
    LayoutAtMidpoints(avg, midMin, midMax, barMin, barMax);
    OnBarMonotone(barMin, (barMin + midMin) / 2.0, barMin, barMax);
    OnBarMonotone((barMin + midMin) / 2.0, midMin, barMin, barMax);
    OnBarMonotone(midMin, (midMin + midMax) / 2.0, barMin, barMax);
    OnBarMonotone((midMin + midMax) / 2.0, midMax, barMin, barMax);
    OnBarMonotone(midMax, (midMax + barMax) / 2.0, barMin, barMax);
    OnBarMonotone((midMax + barMax) / 2.0, barMax, barMin, barMax);
  }

  lemma OnBarMonotone(x: real, y: real, barMin: real, barMax: real)
    requires barMin < barMax && x <= y
    ensures OnBar(x, barMin, barMax) <= OnBar(y, barMin, barMax)
    ensures OnBar(barMin, barMin, barMax) == 0.1 && OnBar(barMax, barMin, barMax) == 0.9
  {
    var w := barMax - barMin;
    assert 0.8 * (y - barMin) / w - 0.8 * (x - barMin) / w == 0.8 * (y - x) / w;
    assert 0.8 * (barMax - barMin) / w == 0.8;
  }

  /** One gauge of the report: its metric, the middle band and the bar's ends. */
  datatype Gauge = Gauge(metric: string, midMin: real, midMax: real, barMin: real, barMax: real)

  /** The gauges `_generate_all_graphics` draws. */
  const ReportGauges: seq<Gauge> := [
    Gauge("pace", 120.0, 150.0, 60.0, 210.0),
    Gauge("eye_contact", 50.0, 70.0, 0.0, 100.0),
    Gauge("sentiment", 35.0, 65.0, 0.0, 100.0),
    Gauge("smile", 35.0, 65.0, 0.0, 100.0),
    Gauge("volume", 60.0, 80.0, 0.0, 150.0)]

  /** Every gauge of the report lays out whatever was measured, with its texts in order. */
  lemma ReportGaugesLayOut(avg: real)
    ensures forall g :: g in ReportGauges ==>
      && Layout(avg, g.midMin, g.midMax, g.barMin, g.barMax).Ok?
      && var l := Layout(avg, g.midMin, g.midMax, g.barMin, g.barMax).value;
         0.1 <= l.low <= l.middleLow <= l.middle <= l.middleHigh <= l.high <= 0.9
  {
    forall g | g in ReportGauges
      ensures && Layout(avg, g.midMin, g.midMax, g.barMin, g.barMax).Ok?
              && var l := Layout(avg, g.midMin, g.midMax, g.barMin, g.barMax).value;
                 0.1 <= l.low <= l.middleLow <= l.middle <= l.middleHigh <= l.high <= 0.9
    {
      LayoutOrdered(avg, g.midMin, g.midMax, g.barMin, g.barMax);
    }
  }

  // Line charts

  /** `np.linspace(a, b, num)`: `num` evenly spaced values from `a` to `b`. */
  function Linspace(a: real, b: real, num: nat): (r: seq<real>)
    ensures |r| == num
  {
    if num == 1 then [a]
    else seq(num, k requires 0 <= k < num => a + (b - a) * (k as real) / ((num - 1) as real))
  }

  /** A linspace of at least two values starts at `a`, ends at `b`, and is constant
      when `a == b`. */
  lemma LinspaceEnds(a: real, b: real, num: nat)
    requires num >= 2
    ensures Linspace(a, b, num)[0] == a && Linspace(a, b, num)[num - 1] == b
    ensures a == b ==> forall k :: 0 <= k < num ==> Linspace(a, b, num)[k] == a
  {
    var r := Linspace(a, b, num);
    var d := (num - 1) as real;
    assert r[0] == a + (b - a) * 0.0 / d;
    assert r[num - 1] == a + (b - a) * d / d;
    ScaledBack(b - a, d);
  }

  lemma ScaledBack(x: real, d: real)
    requires d > 0.0
    ensures x * d / d == x
  {
  }

  /** The values between two samples, `points_per_segment` of them. */
  const PointsPerSegment: nat := 100

  /** The flattened `[np.linspace(y[x], y[x + 1], 100) for x in range(segments)]`. */
  function ResampleY(ys: seq<real>): (r: seq<real>)
    ensures |r| == if ys == [] then 0 else PointsPerSegment * (|ys| - 1)
    decreases |ys|
  {
    if |ys| < 2 then []
    else Linspace(ys[0], ys[1], PointsPerSegment) + ResampleY(ys[1..])
  }

  /** The `i`-th block of resampled values. */
  function Block(ys: seq<real>, i: nat): (b: seq<real>)
    requires i + 1 < |ys|
    ensures |b| == PointsPerSegment
  {
    ResampleY(ys)[PointsPerSegment * i..PointsPerSegment * (i + 1)]
  }

  /** Block `i` of the resampled values runs linearly from sample `i` to sample `i + 1`. */
  lemma {:induction false} ResampleBlock(ys: seq<real>, i: nat)
    requires i + 1 < |ys|
    ensures Block(ys, i) == Linspace(ys[i], ys[i + 1], PointsPerSegment)
    decreases i
  {
    var head := Linspace(ys[0], ys[1], PointsPerSegment);
    var tail := ResampleY(ys[1..]);
    assert ResampleY(ys) == head + tail;
    if i > 0 {
      ResampleBlock(ys[1..], i - 1);
      assert Block(ys, i) == tail[PointsPerSegment * (i - 1)..PointsPerSegment * i];
    }
  }

  /** Each block starts at its first sample and ends at the next one; equal
      consecutive samples give a flat block. */
  lemma ResampleBlockEnds(ys: seq<real>, i: nat)
    requires i + 1 < |ys|
    ensures Block(ys, i)[0] == ys[i]
    ensures Block(ys, i)[PointsPerSegment - 1] == ys[i + 1]
    ensures ys[i] == ys[i + 1] ==> forall k :: 0 <= k < PointsPerSegment ==> Block(ys, i)[k] == ys[i]
  {
    ResampleBlock(ys, i);
    LinspaceEnds(ys[i], ys[i + 1], PointsPerSegment);
  }

  /** `min(xs, default=0)`. */
  function MinOr(xs: seq<real>): (m: real)
    ensures xs != [] ==> m in xs && forall x :: x in xs ==> m <= x
    ensures xs == [] ==> m == 0.0
  {
    if xs == [] then 0.0
    else if |xs| == 1 then xs[0]
    else
      var rest := MinOr(xs[1..]);
      assert forall x :: x in xs ==> x == xs[0] || x in xs[1..];
      if xs[0] <= rest then xs[0] else rest
  }

  /** `max(xs, default=0)`. */
  function MaxOr(xs: seq<real>): (m: real)
    ensures xs != [] ==> m in xs && forall x :: x in xs ==> x <= m
    ensures xs == [] ==> m == 0.0
  {
    if xs == [] then 0.0
    else if |xs| == 1 then xs[0]
    else
      var rest := MaxOr(xs[1..]);
      assert forall x :: x in xs ==> x == xs[0] || x in xs[1..];
      if xs[0] >= rest then xs[0] else rest
  }

  /** The x grid of the scatter: evenly spaced from the earliest to the latest time,
      as many points as there are resampled values. */
  function ResampleX(xs: seq<real>): seq<real> {
    var segments := if xs == [] then 0 else |xs| - 1;
    Linspace(MinOr(xs), MaxOr(xs), segments * PointsPerSegment)
  }

  /** A series of `n` samples gives `100 * (n - 1)` points (none when empty) and the two
      coordinates pair up; the grid runs from the earliest to the latest time. */
  lemma ResampleShape(xs: seq<real>, ys: seq<real>)
    requires |xs| == |ys|
    ensures |ResampleX(xs)| == |ResampleY(ys)|
    ensures |ResampleY(ys)| == if ys == [] then 0 else PointsPerSegment * (|ys| - 1)
    ensures |xs| >= 2 ==> ResampleX(xs)[0] == MinOr(xs) && ResampleX(xs)[|ResampleX(xs)| - 1] == MaxOr(xs)
  {
    if |xs| >= 2 {
      LinspaceEnds(MinOr(xs), MaxOr(xs), (|xs| - 1) * PointsPerSegment);
    }
  }

  // The pause chart

  /** The pause kinds, in the order the chart lists them. */
  const PauseKinds: seq<string> := ["sensory", "sentence", "transition", "strategic", "long"]

  /** The keys of the pause section the chart reads: `pauses_count_` and a kind. */
  const PauseKeys: seq<string> := seq(|PauseKinds|, i requires 0 <= i < |PauseKinds| => "pauses_count_" + PauseKinds[i])

  /** `(key.replace("pauses_count_", "") + " pause").title()`. */
  function PauseLabel(key: string): string {
    Title(Replace(key, "pauses_count_", "") + " pause")
  }

  /** Removing a prefix that cannot occur in the rest, because the rest is shorter. */
  lemma ReplacePrefix(prefix: string, rest: string)
    requires prefix != [] && |rest| < |prefix|
    ensures Replace(prefix + rest, prefix, "") == rest
  {
    var s := prefix + rest;
    assert s[..|prefix|] == prefix && s[|prefix|..] == rest;
    assert SplitOn(rest, prefix) == [rest];
    assert SplitOn(s, prefix) == [""] + SplitOn(s[|prefix|..], prefix);
    assert SplitOn(s, prefix) == ["", rest];
    assert ["", rest][1..] == [rest];
    assert JoinWith("", ["", rest]) == "" + "" + JoinWith("", [rest]);
  }

  /** Lower-case letters after a cased character are kept as they are. */
  lemma {:induction false} TitleAfterLowerWord(w: string, rest: string)
    requires forall i :: 0 <= i < |w| ==> IsLower(w[i])
    ensures TitleAfter(w + rest, true) == w + TitleAfter(rest, true)
    decreases |w|
  {
    if w != [] {
      var s := w + rest;
      assert s[0] == w[0] && s[1..] == w[1..] + rest;
      assert TitleAfter(s, true) == [ToLower(s[0])] + TitleAfter(s[1..], IsUpper(s[0]) || IsLower(s[0]));
      TitleAfterLowerWord(w[1..], rest);
      assert IsLower(w[0]);
      assert ToLower(w[0]) == w[0];
      assert TitleAfter(s, true) == [w[0]] + TitleAfter(w[1..] + rest, true);
      assert TitleAfter(s, true) == [w[0]] + (w[1..] + TitleAfter(rest, true));
      assert w == [w[0]] + w[1..];
    } else {
      assert w + rest == rest;
    }
  }

  /** A lower-case word followed by something else is title-cased at its first letter. */
  lemma TitleOfLowerWord(w: string, rest: string)
    requires w != [] && forall i :: 0 <= i < |w| ==> IsLower(w[i])
    ensures TitleAfter(w + rest, false) == [ToUpper(w[0])] + w[1..] + TitleAfter(rest, true)
  {
    assert (w + rest)[1..] == w[1..] + rest;
    TitleAfterLowerWord(w[1..], rest);
  }

  /** The label of a pause kind named by a lower-case word. */
  lemma PauseLabelOfWord(w: string)
    requires w != [] && |w| < 13 && forall i :: 0 <= i < |w| ==> IsLower(w[i])
    ensures PauseLabel("pauses_count_" + w) == [ToUpper(w[0])] + w[1..] + " Pause"
  {
    ReplacePrefix("pauses_count_", w);
    TitleOfLowerWord(w, " pause");
    assert TitleAfter(" pause", true) == " " + TitleAfter("pause", false);
    TitleOfLowerWord("p", "ause");
    assert "pause" == "p" + "ause";
    TitleAfterLowerWord("ause", "");
    assert "ause" + "" == "ause";
  }

  /** Each bar of the pause chart is labelled with its kind, capitalised, and
      "Pause": "Sensory Pause" first and "Long Pause" last. */
  lemma PauseLabels()
    ensures forall i :: 0 <= i < |PauseKeys| ==>
      PauseLabel(PauseKeys[i]) == [ToUpper(PauseKinds[i][0])] + PauseKinds[i][1..] + " Pause"
    ensures PauseLabel(PauseKeys[0]) == "Sensory Pause"
    ensures PauseLabel(PauseKeys[4]) == "Long Pause"
  {
    forall i | 0 <= i < |PauseKeys|
      ensures PauseLabel(PauseKeys[i]) == [ToUpper(PauseKinds[i][0])] + PauseKinds[i][1..] + " Pause"
    {
      PauseLabelOfWord(PauseKinds[i]);
    }
    assert ToUpper('s') == 'S' && ToUpper('l') == 'L';
  }

  /** The three numbers the chart reads for one pause kind: the recommended minimum and
      maximum and the number counted. */
  datatype PauseCounts = PauseCounts(min: real, max: real, count: real)

  /** The three stacked segments of one bar: the recommended minimum (raised to 0), the
      part of the recommended range above it, and the excess of the count over the
      recommended maximum. */
  datatype PauseBar = PauseBar(base: real, range: real, gap: real)

  function Max(a: real, b: real): real { if a >= b then a else b }

  function Bar(p: PauseCounts): PauseBar {
    var base := Max(p.min, 0.0);
    PauseBar(base, Max(0.0, p.max - base), Max(0.0, p.count - p.max))
  }

  /** Whatever was recommended or counted, no segment has a negative width; the range
      segment reaches the recommended maximum when that lies above the base, and the
      gap segment, drawn from the recommended maximum, reaches the count when that lies
      above it. */
  lemma BarWidths(p: PauseCounts)
    ensures Bar(p).base >= 0.0 && Bar(p).range >= 0.0 && Bar(p).gap >= 0.0
    ensures Bar(p).base + Bar(p).range == Max(Bar(p).base, p.max)
    ensures p.max + Bar(p).gap == Max(p.max, p.count)
  {
  }

  // The spider plot

  function Sum(xs: seq<real>): real {
    if xs == [] then 0.0 else Sum(xs[..|xs| - 1]) + xs[|xs| - 1]
  }

  /** `statistics.mean(xs)`. */
  function Mean(xs: seq<real>): real
    requires xs != []
  {
    Sum(xs) / (|xs| as real)
  }

  lemma {:induction false} SumBounds(xs: seq<real>, lo: real, hi: real)
    requires forall i :: 0 <= i < |xs| ==> lo <= xs[i] <= hi
    ensures (|xs| as real) * lo <= Sum(xs) <= (|xs| as real) * hi
    decreases |xs|
  {
    if xs != [] {
      SumBounds(xs[..|xs| - 1], lo, hi);
    }
  }

  /** The mean lies between the smallest and the largest value. */
  lemma MeanBounds(xs: seq<real>, lo: real, hi: real)
    requires xs != [] && forall i :: 0 <= i < |xs| ==> lo <= xs[i] <= hi
    ensures lo <= Mean(xs) <= hi
  {
    SumBounds(xs, lo, hi);
    var n := |xs| as real;
    assert Sum(xs) / n * n == Sum(xs);
  }

  /** The scores of one focus area as numbers. */
  function AreaScores(bucket: Dict<string, Value>): (r: Result<seq<real>>)
    ensures r.Ok? <==> forall i :: 0 <= i < |bucket| ==> IsNumber(bucket[i].1)
    ensures r.Ok? ==> |r.value| == |bucket| && forall i :: 0 <= i < |bucket| ==> r.value[i] == AsReal(bucket[i].1)
  {
    if exists i :: 0 <= i < |bucket| && !IsNumber(bucket[i].1) then Err(TypeError("scores must be numbers"))
    else Ok(seq(|bucket|, i requires 0 <= i < |bucket| => AsReal(bucket[i].1)))
  }

  /** `mean(skills.values())` for one focus area: an empty area raises. */
  function AreaMean(bucket: Dict<string, Value>): (r: Result<real>)
    ensures bucket == [] ==> r == Err(StatisticsError)
    ensures r.Ok? <==> bucket != [] && AreaScores(bucket).Ok?
    ensures r.Ok? ==> r.value == Mean(AreaScores(bucket).value)
  {
    if bucket == [] then Err(StatisticsError)
    else
      var xs :- AreaScores(bucket);
      Ok(Mean(xs))
  }

  /** `xs + xs[:1]`: the first point again, to close the polygon. */
  function Closed<T>(xs: seq<T>): (r: seq<T>)
    ensures xs == [] ==> r == []
    ensures xs != [] ==> |r| == |xs| + 1 && r[..|xs|] == xs && r[|xs|] == xs[0]
  {
    xs + xs[..if xs == [] then 0 else 1]
  }

  /** The means of the focus areas in order, the first repeated at the end; the first
      area that is empty or holds a non-number raises. */
  function SpiderScores(buckets: Dict<string, Dict<string, Value>>): (r: Result<seq<real>>)
    ensures r.Ok? <==> forall i :: 0 <= i < |buckets| ==> AreaMean(buckets[i].1).Ok?
    ensures r.Ok? ==> r.value == Closed(seq(|buckets|, i requires 0 <= i < |buckets| => AreaMean(buckets[i].1).value))
  {
    var means :- AreaMeans(buckets);
    Ok(Closed(means))
  }

  /** `[mean(skills.values()) for skills in buckets.values()]`. */
  function AreaMeans(buckets: Dict<string, Dict<string, Value>>): (r: Result<seq<real>>)
    ensures r.Ok? <==> forall i :: 0 <= i < |buckets| ==> AreaMean(buckets[i].1).Ok?
    ensures r.Ok? ==> r.value == seq(|buckets|, i requires 0 <= i < |buckets| => AreaMean(buckets[i].1).value)
    decreases |buckets|
  {
    if buckets == [] then Ok([])
    else
      var init := buckets[..|buckets| - 1];
      assert forall i :: 0 <= i < |init| ==> init[i] == buckets[i];
      var means :- AreaMeans(init);
      var m :- AreaMean(buckets[|buckets| - 1].1);
      Ok(means + [m])
  }

  /** An area that raises decides the plot's error when all areas before it have means. */
  lemma {:induction false} SpiderScoresFirstFailure(buckets: Dict<string, Dict<string, Value>>, i: nat)
    requires i < |buckets| && AreaMean(buckets[i].1).Err?
    requires forall j :: 0 <= j < i ==> AreaMean(buckets[j].1).Ok?
    ensures SpiderScores(buckets) == Err(AreaMean(buckets[i].1).error)
    decreases |buckets|
  {
    AreaMeansFirstFailure(buckets, i);
  }

  lemma {:induction false} AreaMeansFirstFailure(buckets: Dict<string, Dict<string, Value>>, i: nat)
    requires i < |buckets| && AreaMean(buckets[i].1).Err?
    requires forall j :: 0 <= j < i ==> AreaMean(buckets[j].1).Ok?
    ensures AreaMeans(buckets) == Err(AreaMean(buckets[i].1).error)
    decreases |buckets|
  {
    var init := buckets[..|buckets| - 1];
    assert forall j :: 0 <= j < |init| ==> init[j] == buckets[j];
    if i < |buckets| - 1 {
      AreaMeansFirstFailure(init, i);
    }
  }

  /** `PI` as the chart writes it. */
  const Pi: real := 3.14592

  /** `[n / float(N) * 2 * PI for n in range(N)]` with the first angle repeated. */
  function SpiderAngles(n: nat): seq<real> {
    Closed(seq(n, k requires 0 <= k < n => (k as real) / (n as real) * 2.0 * Pi))
  }

  /** The angles start at 0, rise evenly below a full turn and close on the first; there
      is one per focus area plus the closing one, as for the scores. */
  lemma SpiderAnglesShape(n: nat)
    ensures |SpiderAngles(n)| == if n == 0 then 0 else n + 1
    ensures n > 0 ==> SpiderAngles(n)[0] == 0.0 && SpiderAngles(n)[n] == 0.0
    ensures forall k :: 0 <= k < n ==> 0.0 <= SpiderAngles(n)[k] < 2.0 * Pi
    ensures forall j, k :: 0 <= j < k < n ==> SpiderAngles(n)[j] < SpiderAngles(n)[k]
  {
    var a := seq(n, k requires 0 <= k < n => (k as real) / (n as real) * 2.0 * Pi);
    assert forall k :: 0 <= k < n ==> SpiderAngles(n)[k] == a[k];
    forall k | 0 <= k < n ensures 0.0 <= a[k] < 2.0 * Pi {
      FractionBounds(k, k + 1, n);
    }
    forall j, k | 0 <= j < k < n ensures a[j] < a[k] {
      FractionBounds(j, k, n);
    }
  }

  lemma FractionBounds(j: nat, k: nat, n: nat)
    requires j < k <= n
    ensures 0.0 <= (j as real) / (n as real) < (k as real) / (n as real) <= 1.0
  {
    var f := (j as real) / (n as real);
    var g := (k as real) / (n as real);
    assert f * (n as real) == j as real;
    assert g * (n as real) == k as real;
  }

  /** Where the value label of a spider point is nudged, by the point's angle: up in
      the first quarter, right up to 3, down below 4.5, left beyond. */
  function LabelOffset(x: real): (int, int) {
    if 0.0 <= x <= 1.5 then (0, 8)
    else if x <= 3.0 then (8, 0)
    else if x < 4.5 then (0, -8)
    else (-8, 0)
  }

  /** The four nudges in the order a turn from angle 0 meets them: up, right, down, left. */
  const Nudges: seq<(int, int)> := [(0, 8), (8, 0), (0, -8), (-8, 0)]

  /** The position of a nudge in `Nudges`. */
  function NudgeRank(o: (int, int)): nat {
    if o == (0, 8) then 0 else if o == (8, 0) then 1 else if o == (0, -8) then 2 else 3
  }

  /** Along non-negative angles the nudge is always one of the four, and it never goes
      back in the order up, right, down, left. */
  lemma LabelOffsetMonotone(x: real, y: real)
    requires 0.0 <= x <= y
    ensures LabelOffset(x) in Nudges && LabelOffset(y) in Nudges
    ensures NudgeRank(LabelOffset(x)) <= NudgeRank(LabelOffset(y))
  {
  }

  /** For any number of focus areas, the first point and the closing point are nudged
      up, and from point to point around the plot the nudge moves through up, right, down
      and left in that order, never going back. */
  lemma {:induction false} SpiderLabelOffsets(n: nat)
    requires n >= 1
    ensures LabelOffset(SpiderAngles(n)[0]) == (0, 8)
    ensures LabelOffset(SpiderAngles(n)[n]) == (0, 8)
    ensures forall k :: 0 <= k < n ==> LabelOffset(SpiderAngles(n)[k]) in Nudges
    ensures forall j, k :: 0 <= j < k < n ==>
      NudgeRank(LabelOffset(SpiderAngles(n)[j])) <= NudgeRank(LabelOffset(SpiderAngles(n)[k]))
  {
    var a := SpiderAngles(n);
    SpiderAnglesShape(n);
    forall k | 0 <= k < n ensures LabelOffset(a[k]) in Nudges {
      LabelOffsetMonotone(a[k], a[k]);
    }
    forall j, k | 0 <= j < k < n ensures NudgeRank(LabelOffset(a[j])) <= NudgeRank(LabelOffset(a[k])) {
      LabelOffsetMonotone(a[j], a[k]);
    }
  }

  /** With four focus areas the points go up, right, down and left in turn. */
  lemma FourAreaOffsets()
    ensures LabelOffset(SpiderAngles(4)[0]) == (0, 8)
    ensures LabelOffset(SpiderAngles(4)[1]) == (8, 0)
    ensures LabelOffset(SpiderAngles(4)[2]) == (0, -8)
    ensures LabelOffset(SpiderAngles(4)[3]) == (-8, 0)
  {
  }

  // Skill gauges

  /** One row of the skill-range table: the skill, its gauge's ends and two marks. */
  datatype RangeRow = RangeRow(skill: string, min: real, max: real, r1: real, r2: real)

  /** `df.loc[df["Skills (Competencies)"] == skill, column].values[0]`: the first row of
      the skill; without one, `[0]` raises `IndexError`. */
  function SkillRange(rows: seq<RangeRow>, skill: string): (r: Result<RangeRow>)
    ensures r.Ok? <==> exists i :: 0 <= i < |rows| && rows[i].skill == skill
    ensures r.Err? ==> r.error == IndexError
    ensures r.Ok? ==> exists i :: (
      && 0 <= i < |rows| && rows[i] == r.value && r.value.skill == skill
      && forall j :: 0 <= j < i ==> rows[j].skill != skill)
    decreases |rows|
  {
    if rows == [] then Err(IndexError)
    else if rows[0].skill == skill then Ok(rows[0])
    else
      var r := SkillRange(rows[1..], skill);
      assert forall i :: 1 <= i < |rows| ==> rows[i] == rows[1..][i - 1];
      if r.Ok? then
        assert exists i :: (0 <= i < |rows| && rows[i] == r.value && r.value.skill == skill
          && forall j :: 0 <= j < i ==> rows[j].skill != skill) by {
          var i :| 0 <= i < |rows[1..]| && rows[1..][i] == r.value && r.value.skill == skill
            && forall j :: 0 <= j < i ==> rows[1..][j].skill != skill;
          assert rows[i + 1] == r.value;
          assert forall j :: 1 <= j < i + 1 ==> rows[j] == rows[1..][j - 1];
        }
        r
      else r
  }
}
