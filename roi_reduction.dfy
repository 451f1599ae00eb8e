/** `ROIPicker`: for each integrated run coming out of the analysis
    pipeline, reduce every pattern `(q, mean)` to the area of one peak,
    buffer the rows, and at the end of the run publish one event holding
    their averages. The publisher is an append-only log of `(name, doc)`
    pairs; the documents `compose_run` and friends build are kept as
    values carrying the fields this code puts into them. */
module RoiReduction {
  import opened PyCore
  import opened PeakArea
  import opened SampleName

  // ---------------------------------------------------------------------
  // Documents in and out
  // ---------------------------------------------------------------------

  /** The fields of an incoming start document that this code reads.
      `None` is a missing key (or, for the optional ones, a `None` value). */
  datatype RunStart = RunStart(
    uid: Option<string>,
    originalStartUid: Option<string>,
    sampleName: Option<string>,
    batchCount: Option<int>,
    analysisStage: Option<string>)

  /** An incoming event page: `doc["data"]`, a column per key, one
      array per event. */
  datatype PageDoc = PageDoc(data: map<string, seq<seq<real>>>)

  /** The metadata given to `compose_run`. */
  datatype RunMetadata = RunMetadata(rawUid: string, integratedUid: string, batchCount: Option<int>)

  datatype DataKey = DataKey(dtype: string, source: string, units: string, shape: seq<int>)

  /** The documents the picker publishes; `run` is the uid of the run
      `compose_run` opened (drawn at random, so passed in). */
  datatype OutDoc =
    | StartOut(run: string, metadata: RunMetadata)
    | DescriptorOut(run: string, streamName: string, dataKeys: map<string, DataKey>)
    | EventOut(run: string, data: map<string, Num>, timestamps: map<string, real>)
    | StopOut(run: string)

  datatype Publication = Publication(name: string, doc: OutDoc)

  /** The 0MQ publisher: every call sends one `(name, doc)` pair. */
  class Publisher {
    ghost var sent: seq<Publication>

    constructor ()
      ensures sent == []
    {
      sent := [];
    }

    method Publish(name: string, doc: OutDoc)
      modifies this
      ensures sent == old(sent) + [Publication(name, doc)]
    {
      sent := sent + [Publication(name, doc)];
    }
  }

  const RowKeys: seq<string> := ["I_00", "Q_00", "ctrl_Ti", "ctrl_annealing_time", "ctrl_temp"]

  /** The five computed scalar columns of the output stream. */
  function DataKeys(): (keys: map<string, DataKey>)
    ensures keys.Keys == set k | k in RowKeys
    ensures forall k :: k in keys ==> keys[k] == DataKey("number", "computed", "arb", [])
  {
    map k | k in RowKeys :: DataKey("number", "computed", "arb", [])
  }

  // ---------------------------------------------------------------------
  // One reduced row
  // ---------------------------------------------------------------------

  /** The control values mirrored into every row (placeholders in the
      code, chosen by whether the run has a sample name). */
  datatype Controls = Controls(ti: real, annealingTime: int, temp: real)

  function ControlsFor(sampleName: Option<string>): (c: Controls)
    ensures sampleName.Some? <==> c == Controls(1.0, 2, 3.0)
    ensures sampleName.None? <==> c == Controls(4.0, 5, 6.0)
  {
    if sampleName.Some? then Controls(1.0, 2, 3.0) else Controls(4.0, 5, 6.0)
  }

  datatype Row = Row(i00: Num, q00: real, controls: Controls)

  /** The dict appended to `_data` for one pattern. */
  function RowData(r: Row): (d: map<string, Num>)
    ensures d.Keys == set k | k in RowKeys
  {
    map["I_00" := r.i00, "Q_00" := Finite(r.q00),
        "ctrl_Ti" := Finite(r.controls.ti),
        "ctrl_annealing_time" := Finite(r.controls.annealingTime as real),
        "ctrl_temp" := Finite(r.controls.temp)]
  }

  /** `zip(a, b)`: pairs up to the shorter of the two. */
  function Zip<A, B>(a: seq<A>, b: seq<B>): (z: seq<(A, B)>)
    ensures |z| == if |a| <= |b| then |a| else |b|
    ensures forall k :: 0 <= k < |z| ==> z[k] == (a[k], b[k])
  {
    var n := if |a| <= |b| then |a| else |b|;
    seq(n, k requires 0 <= k < n => (a[k], b[k]))
  }

  /** `compute_peak_area(Q, I, *peak_location)` */
  function Area(pair: (seq<real>, seq<real>), peak: (real, real)): Result<Num>
  {
    ComputePeakArea(pair.0, pair.1, peak.0, peak.1)
  }

  /** `compute_peak_area` over every pair, in order. */
  function Areas(pairs: seq<(seq<real>, seq<real>)>, peak: (real, real)): (a: seq<Result<Num>>)
    ensures |a| == |pairs|
  {
    seq(|pairs|, k requires 0 <= k < |pairs| => Area(pairs[k], peak))
  }

  /** The rows appended by a run of the loop, and the error that stopped
      it early, if any. */
  datatype Reduction = Reduction(rows: seq<Row>, failure: Option<PyError>)

  /** The `for Q, I in zip(...)` loop, given the area each pair yields:
      one row per pair until an area computation raises; the rows appended
      before it stay, and the pairs after it are never reached. */
  function Reduce(areas: seq<Result<Num>>, q00: real, c: Controls): (r: Reduction)
    ensures |r.rows| <= |areas|
    ensures r.failure.None? ==> |r.rows| == |areas|
    ensures r.failure.Some? ==> |r.rows| < |areas| && areas[|r.rows|] == Err(r.failure.value)
    ensures forall k :: 0 <= k < |r.rows| ==> areas[k].Ok? && r.rows[k] == Row(areas[k].value, q00, c)
    decreases |areas|
  {
    if areas == [] then Reduction([], None)
    else
      var last := |areas| - 1;
      var before := Reduce(areas[..last], q00, c);
      assert forall k :: 0 <= k < last ==> areas[..last][k] == areas[k];
      if before.failure.Some? then before
      else
        match areas[last]
        case Err(e) => Reduction(before.rows, Some(e))
        case Ok(area) => Reduction(before.rows + [Row(area, q00, c)], None)
  }

  lemma {:induction false} ReduceStaysFailed(areas: seq<Result<Num>>, q00: real, c: Controls, k: nat)
    requires k <= |areas|
    requires Reduce(areas[..k], q00, c).failure.Some?
    ensures Reduce(areas, q00, c) == Reduce(areas[..k], q00, c)
    decreases |areas| - k
  {
    if k < |areas| {
      assert areas[..k + 1][..k] == areas[..k];
      ReduceStaysFailed(areas, q00, c, k + 1);
    } else {
      assert areas[..k] == areas;
    }
  }

  /** One more pair: a failure there is where the whole loop stops; a
      success appends its row. */
  lemma ReduceStep(areas: seq<Result<Num>>, q00: real, c: Controls, i: nat, before: seq<Row>)
    requires i < |areas|
    requires Reduce(areas[..i], q00, c).failure.None?
    ensures areas[i].Err? ==>
      Reduce(areas, q00, c) == Reduction(Reduce(areas[..i], q00, c).rows, Some(areas[i].error))
    ensures areas[i].Ok? ==>
      && Reduce(areas[..i + 1], q00, c).failure.None?
      && before + Reduce(areas[..i + 1], q00, c).rows == before + Reduce(areas[..i], q00, c).rows + [Row(areas[i].value, q00, c)]
  {
    assert areas[..i + 1][..i] == areas[..i];
    if areas[i].Err? {
      ReduceStaysFailed(areas, q00, c, i + 1);
    }
  }

  /** `np.mean(peak_location)`: the centre of the window. */
  function Centre(peak: (real, real)): (c: real)
    ensures c - peak.0 == peak.1 - c
    ensures peak.0 <= peak.1 ==> peak.0 <= c <= peak.1
  {
    (peak.0 + peak.1) / 2.0
  }

  /** What one `event_page` call adds after the descriptor step: the sample
      name is parsed first (its result is unused, but its ValueError
      escapes), then the `q` and `mean` columns are looked up, then the
      loop runs. */
  function PageReduction(sampleName: Option<string>, doc: PageDoc, peak: (real, real)): (r: Reduction)
    ensures sampleName.Some? && ParseName(sampleName.value).Err? ==> r == Reduction([], Some(ValueError))
    ensures ("q" !in doc.data || "mean" !in doc.data) && !(sampleName.Some? && ParseName(sampleName.value).Err?) ==>
      r == Reduction([], Some(KeyError))
  {
    if sampleName.Some? && ParseName(sampleName.value).Err? then Reduction([], Some(ParseName(sampleName.value).error))
    else if "q" !in doc.data || "mean" !in doc.data then Reduction([], Some(KeyError))
    else Reduce(Areas(Zip(doc.data["q"], doc.data["mean"]), peak), Centre(peak), ControlsFor(sampleName))
  }

  /** A page whose columns are all there and whose patterns all reduce adds
      exactly `min(len(q), len(mean))` rows, each centred on the peak and
      carrying the controls chosen by the sample name. */
  lemma PageRows(sampleName: Option<string>, doc: PageDoc, peak: (real, real))
    requires !(sampleName.Some? && ParseName(sampleName.value).Err?)
    requires "q" in doc.data && "mean" in doc.data
    requires PageReduction(sampleName, doc, peak).failure.None?
    ensures var rows := PageReduction(sampleName, doc, peak).rows;
      var q, mean := doc.data["q"], doc.data["mean"];
      && |rows| == (if |q| <= |mean| then |q| else |mean|)
      && forall k :: 0 <= k < |rows| ==>
           && rows[k].q00 == (peak.0 + peak.1) / 2.0
           && rows[k].controls == ControlsFor(sampleName)
           && Area((q[k], mean[k]), peak) == Ok(rows[k].i00)
  {
    var pairs := Zip(doc.data["q"], doc.data["mean"]);
    var areas := Areas(pairs, peak);
    var r := Reduce(areas, Centre(peak), ControlsFor(sampleName));
    forall k | 0 <= k < |r.rows|
      ensures Area((doc.data["q"][k], doc.data["mean"][k]), peak) == Ok(r.rows[k].i00)
    {
      assert areas[k] == Area(pairs[k], peak);
    }
  }

  // ---------------------------------------------------------------------
  // Column statistics (numpy on float columns)
  // ---------------------------------------------------------------------

  predicate AllFinite(xs: seq<Num>)
  {
    forall k :: 0 <= k < |xs| ==> xs[k].Finite?
  }

  function Values(xs: seq<Num>): (v: seq<real>)
    requires AllFinite(xs)
    ensures |v| == |xs| && forall k :: 0 <= k < |xs| ==> xs[k] == Finite(v[k])
  {
    seq(|xs|, k requires 0 <= k < |xs| => xs[k].value)
  }

  /** `np.mean` of a float column: NaN if it is empty or holds a NaN. */
  function MeanNum(xs: seq<Num>): (m: Num)
    ensures m.NaN? <==> xs == [] || !AllFinite(xs)
  {
    if !AllFinite(xs) then NaN else Mean(Values(xs))
  }

  function SquaredDeviations(v: seq<real>, mu: real): (d: seq<real>)
    ensures |d| == |v|
    ensures forall k :: 0 <= k < |v| ==> d[k] == (v[k] - mu) * (v[k] - mu)
  {
    seq(|v|, k requires 0 <= k < |v| => (v[k] - mu) * (v[k] - mu))
  }

  lemma {:induction false} SumNonNegative(s: seq<real>)
    requires forall k :: 0 <= k < |s| ==> s[k] >= 0.0
    ensures Sum(s) >= 0.0
  {
    if s != [] {
      SumNonNegative(s[1..]);
    }
  }

  /** `np.var` (population variance) of a float column: NaN if it is empty
      or holds a NaN, and never negative otherwise. */
  function VarNum(xs: seq<Num>): (v: Num)
    ensures v.NaN? <==> xs == [] || !AllFinite(xs)
    ensures v.Finite? ==> v.value >= 0.0
  {
    if xs == [] || !AllFinite(xs) then NaN
    else
      var values := Values(xs);
      var d := SquaredDeviations(values, Mean(values).value);
      SumNonNegative(d);
      Mean(d)
  }

  lemma {:induction false} SumConstant(s: seq<real>, c: real)
    requires forall k :: 0 <= k < |s| ==> s[k] == c
    ensures Sum(s) == |s| as real * c
  {
    if s != [] {
      SumConstant(s[1..], c);
    }
  }

  /** The mean of a column that holds one value everywhere is that value. */
  lemma MeanOfConstant(xs: seq<Num>, c: real)
    requires xs != []
    requires forall k :: 0 <= k < |xs| ==> xs[k] == Finite(c)
    ensures MeanNum(xs) == Finite(c)
  {
    assert AllFinite(xs);
    var v := Values(xs);
    assert forall k :: 0 <= k < |v| ==> v[k] == c;
    SumConstant(v, c);
    var n := |v| as real;
    assert Sum(v) == n * c;
    CancelCount(n, c);
    assert Sum(v) / n == n * c / n == c;
    assert MeanNum(xs) == Mean(v);
  }

  lemma CancelCount(n: real, c: real)
    requires n > 0.0
    ensures n * c / n == c
  {
  }

  /** The variance of a column that holds one value everywhere is zero. */
  lemma VarianceOfConstant(xs: seq<Num>, c: real)
    requires xs != []
    requires forall k :: 0 <= k < |xs| ==> xs[k] == Finite(c)
    ensures VarNum(xs) == Finite(0.0)
  {
    var v := Values(xs);
    MeanOfConstant(xs, c);
    var d := SquaredDeviations(v, c);
    SumConstant(d, 0.0);
  }

  /** `[d[key] for d in self._data]` */
  function Column(rows: seq<Row>, key: string): (col: seq<Num>)
    requires key in RowKeys
    ensures |col| == |rows|
    ensures forall j :: 0 <= j < |rows| ==> col[j] == RowData(rows[j])[key]
  {
    seq(|rows|, j requires 0 <= j < |rows| => RowData(rows[j])[key])
  }

  const EventKeys: set<string> := {"I_00", "Q_00", "ctrl_Ti", "ctrl_annealing_time", "ctrl_temp", "I_00_variance"}

  /** The data of the summary event: every row key mapped to its column
      mean, plus the population variance of `I_00`. */
  function EventData(rows: seq<Row>): (d: map<string, Num>)
    ensures d.Keys == EventKeys
    ensures forall k :: k in RowKeys ==> d[k] == MeanNum(Column(rows, k))
    ensures d["I_00_variance"] == VarNum(Column(rows, "I_00"))
  {
    var means := map k | k in RowKeys :: MeanNum(Column(rows, k));
    means["I_00_variance" := VarNum(Column(rows, "I_00"))]
  }

  /** `{k: _ts for k in data}` */
  function Timestamps(data: map<string, Num>, now: real): (ts: map<string, real>)
    ensures ts.Keys == data.Keys
    ensures forall k :: k in ts ==> ts[k] == now
  {
    map k | k in data :: now
  }

  /** Rows buffered from one sample, all reduced with the same peak window
      and controls: the event reports the window's centre as `Q_00` and the
      controls unchanged. */
  lemma EventControls(rows: seq<Row>, peak: (real, real), c: Controls)
    requires rows != []
    requires forall k :: 0 <= k < |rows| ==> rows[k].q00 == Centre(peak) && rows[k].controls == c
    ensures var d := EventData(rows);
      && d["Q_00"] == Finite(Centre(peak))
      && d["ctrl_Ti"] == Finite(c.ti)
      && d["ctrl_annealing_time"] == Finite(c.annealingTime as real)
      && d["ctrl_temp"] == Finite(c.temp)
  {
    MeanOfConstant(Column(rows, "Q_00"), Centre(peak));
    MeanOfConstant(Column(rows, "ctrl_Ti"), c.ti);
    MeanOfConstant(Column(rows, "ctrl_annealing_time"), c.annealingTime as real);
    MeanOfConstant(Column(rows, "ctrl_temp"), c.temp);
  }

  /** The event's `I_00` is the mean peak area, NaN exactly when some area
      is NaN, and `I_00_variance` is NaN in the same case and otherwise
      non-negative. */
  lemma EventArea(rows: seq<Row>)
    requires rows != []
    ensures var d := EventData(rows);
      && (d["I_00"].NaN? <==> exists k :: 0 <= k < |rows| && rows[k].i00.NaN?)
      && (d["I_00_variance"].NaN? <==> exists k :: 0 <= k < |rows| && rows[k].i00.NaN?)
      && (d["I_00_variance"].Finite? ==> d["I_00_variance"].value >= 0.0)
      && ((forall k :: 0 <= k < |rows| ==> rows[k].i00.Finite?) ==>
            d["I_00"] == Mean(seq(|rows|, k requires 0 <= k < |rows| => rows[k].i00.value)))
  {
    var col := Column(rows, "I_00");
    assert forall k :: 0 <= k < |rows| ==> col[k] == rows[k].i00;
    if forall k :: 0 <= k < |rows| ==> rows[k].i00.Finite? {
      assert AllFinite(col);
      assert Values(col) == seq(|rows|, k requires 0 <= k < |rows| => rows[k].i00.value);
    }
  }

  // ---------------------------------------------------------------------
  // The picker
  // ---------------------------------------------------------------------

  /** What `compose_run` returned: the new run's uid and its metadata. */
  datatype RunBundle = RunBundle(run: string, metadata: RunMetadata)

  function StopPublications(bundle: RunBundle, descRun: string, rows: seq<Row>, now: real): (p: seq<Publication>)
    ensures |p| == if rows == [] then 1 else 2
    ensures p[|p| - 1] == Publication("stop", StopOut(bundle.run))
    ensures rows != [] ==> (p[0].name == "event" && p[0].doc.EventOut? && p[0].doc.data == EventData(rows)
      && p[0].doc.timestamps.Keys == EventKeys)
  {
    if rows == [] then [Publication("stop", StopOut(bundle.run))]
    else
      var data := EventData(rows);
      [Publication("event", EventOut(descRun, data, Timestamps(data, now))),
       Publication("stop", StopOut(bundle.run))]
  }

  class ROIPicker {
    const pub: Publisher
    const peakLocation: (real, real)

    var startBundle: Option<RunBundle>
    /** `desc_bundle`, kept as the uid of the run it was composed in. */
    var descBundle: Option<string>
    var sourceUid: Option<string>
    var sampleName: Option<string>
    /** `_data`: `None` until the first page, then the buffered rows. */
    var data: Option<seq<Row>>

    /** The descriptor and the buffer are created together, and only once
        a start bundle exists. */
    ghost predicate Valid()
      reads this
    {
      (data.Some? <==> descBundle.Some?) && (descBundle.Some? ==> startBundle.Some?)
    }

    constructor (publisher: Publisher, peakLocation: (real, real))
      ensures Valid()
      ensures pub == publisher && this.peakLocation == peakLocation
      ensures startBundle == None && descBundle == None && sourceUid == None && sampleName == None && data == None
    {
      pub := publisher;
      this.peakLocation := peakLocation;
      startBundle := None;
      descBundle := None;
      sourceUid := None;
      sampleName := None;
      data := None;
    }

    /** `start(doc)`: a missing `original_start_uid` raises before anything
        changes; a missing `uid` raises after the source uid and the sample
        name are recorded; otherwise the run is opened under `run` (the
        uid `compose_run` draws) and its start document published. */
    method Start(doc: RunStart, run: string) returns (outcome: Outcome)
      requires Valid()
      modifies this, pub
      ensures Valid()
      ensures descBundle == old(descBundle) && data == old(data)
      ensures doc.originalStartUid.None? ==> (outcome == Raised(KeyError)
        && sourceUid == old(sourceUid) && sampleName == old(sampleName)
        && startBundle == old(startBundle) && pub.sent == old(pub.sent))
      ensures doc.originalStartUid.Some? ==> sourceUid == doc.originalStartUid && sampleName == doc.sampleName
      ensures doc.originalStartUid.Some? && doc.uid.None? ==> (outcome == Raised(KeyError)
        && startBundle == old(startBundle) && pub.sent == old(pub.sent))
      ensures doc.originalStartUid.Some? && doc.uid.Some? ==>
        var md := RunMetadata(doc.originalStartUid.value, doc.uid.value, doc.batchCount);
        && outcome == Done
        && startBundle == Some(RunBundle(run, md))
        && pub.sent == old(pub.sent) + [Publication("start", StartOut(run, md))]
    {
      if doc.originalStartUid.None? {
        return Raised(KeyError);
      }
      sourceUid := doc.originalStartUid;
      sampleName := doc.sampleName;
      if doc.uid.None? {
        return Raised(KeyError);
      }
      var md := RunMetadata(doc.originalStartUid.value, doc.uid.value, doc.batchCount);
      startBundle := Some(RunBundle(run, md));
      pub.Publish("start", StartOut(run, md));
      return Done;
    }

    /** `event_page(doc)`: the first page publishes the descriptor and
        creates the buffer (an AttributeError if no run was opened); then
        the page's rows are appended as `PageReduction` describes, and its
        error, if any, escapes. */
    method EventPage(doc: PageDoc) returns (outcome: Outcome)
      requires Valid()
      modifies this, pub
      ensures Valid()
      ensures startBundle == old(startBundle) && sourceUid == old(sourceUid) && sampleName == old(sampleName)
      ensures old(descBundle).None? && old(startBundle).None? ==>
        (outcome == Raised(AttributeError) && descBundle == None && data == None && pub.sent == old(pub.sent))
      ensures old(descBundle).Some? || old(startBundle).Some? ==>
        var first := old(descBundle).None?;
        var r := PageReduction(sampleName, doc, peakLocation);
        && descBundle == (if first then Some(startBundle.value.run) else old(descBundle))
        && pub.sent == old(pub.sent) +
             (if first then [Publication("descriptor", DescriptorOut(startBundle.value.run, "primary", DataKeys()))] else [])
        && data == Some((if first then [] else old(data).value) + r.rows)
        && outcome == (if r.failure.Some? then Raised(r.failure.value) else Done)
    {
      if descBundle.None? {
        if startBundle.None? {
          return Raised(AttributeError);
        }
        descBundle := Some(startBundle.value.run);
        pub.Publish("descriptor", DescriptorOut(startBundle.value.run, "primary", DataKeys()));
        data := Some([]);
      }
      outcome := AddPage(doc);
    }

    /** The part of `event_page` after the descriptor step. */
    method AddPage(doc: PageDoc) returns (outcome: Outcome)
      requires data.Some?
      modifies this`data
      ensures var r := PageReduction(sampleName, doc, peakLocation);
        && data == Some(old(data).value + r.rows)
        && outcome == (if r.failure.Some? then Raised(r.failure.value) else Done)
    {
      if sampleName.Some? {
        var md := ParseName(sampleName.value);
        if md.Err? {
          assert data.value + [] == data.value;
          return Raised(md.error);
        }
      }
      if "q" !in doc.data || "mean" !in doc.data {
        assert data.value + [] == data.value;
        return Raised(KeyError);
      }
      var pairs := Zip(doc.data["q"], doc.data["mean"]);
      outcome := AppendRows(pairs, Areas(pairs, peakLocation), ControlsFor(sampleName));
    }

    /** The `for Q, I in zip(...)` loop appending one row per pair. */
    method AppendRows(pairs: seq<(seq<real>, seq<real>)>, ghost areas: seq<Result<Num>>, controls: Controls) returns (outcome: Outcome)
      requires |areas| == |pairs|
      requires forall k :: 0 <= k < |pairs| ==> areas[k] == Area(pairs[k], peakLocation)
      requires data.Some?
      modifies this`data
      ensures var r := Reduce(areas, Centre(peakLocation), controls);
        && data == Some(old(data).value + r.rows)
        && outcome == (if r.failure.Some? then Raised(r.failure.value) else Done)
    {
      var q00 := Centre(peakLocation);
      ghost var before := data.value;
      assert areas[..0] == [];
      assert before + [] == before;
      for i := 0 to |pairs|
        invariant Reduce(areas[..i], q00, controls).failure.None?
        invariant data == Some(before + Reduce(areas[..i], q00, controls).rows)
      {
        var area := Area(pairs[i], peakLocation);
        ReduceStep(areas, q00, controls, i, before);
        if area.Err? {
          return Raised(area.error);
        }
        data := Some(data.value + [Row(area.value, q00, controls)]);
      }
      assert areas[..|pairs|] == areas;
      return Done;
    }

    /** `stop(doc)` at time `now`: a TypeError if no page ever arrived
        (the buffer is still `None`); otherwise the summary event when
        rows were buffered, then the stop document. */
    method Stop(now: real) returns (outcome: Outcome)
      requires Valid()
      modifies pub
      ensures old(data).None? ==> outcome == Raised(TypeError) && pub.sent == old(pub.sent)
      ensures old(data).Some? ==> (outcome == Done
        && pub.sent == old(pub.sent) + StopPublications(startBundle.value, descBundle.value, data.value, now))
    {
      if data.None? {
        return Raised(TypeError);
      }
      var rows := data.value;
      if |rows| > 0 {
        var summary := EventData(rows);
        pub.Publish("event", EventOut(descBundle.value, summary, Timestamps(summary, now)));
      }
      pub.Publish("stop", StopOut(startBundle.value.run));
      return Done;
    }
  }

  /** The routing rule of `xpdan_result_picker`: only the integration
      stage of the analysis pipeline is reduced. */
  predicate WantsRun(startDoc: RunStart): (wanted: bool)
    ensures wanted <==> startDoc.analysisStage == Some("integration")
  {
    startDoc.analysisStage.GetOr("") == "integration"
  }

  /** `xpdan_result_picker_factory(zmq_publisher, peak_location)` applied
      to a run's `(name, start_doc)`: a fresh picker sharing the publisher
      for integration runs, and no callback otherwise. */
  method XpdanResultPicker(publisher: Publisher, peakLocation: (real, real), name: string, startDoc: RunStart)
    returns (callbacks: seq<ROIPicker>)
    ensures |callbacks| == if WantsRun(startDoc) then 1 else 0
    ensures forall k :: 0 <= k < |callbacks| ==>
      && fresh(callbacks[k]) && callbacks[k].Valid()
      && callbacks[k].pub == publisher && callbacks[k].peakLocation == peakLocation
      && callbacks[k].data == None && callbacks[k].startBundle == None
  {
    if WantsRun(startDoc) {
      var picker := new ROIPicker(publisher, peakLocation);
      return [picker];
    }
    return [];
  }

  /** One run routed to a fresh picker, as the run router feeds it: start,
      the event pages, stop. Whatever the pages hold, the publisher then
      sees the start document, the descriptor (once), the summary event when
      rows were buffered, and the stop document, in that order; a run
      without pages fails at stop after publishing only its start. */
  method ReduceRun(picker: ROIPicker, doc: RunStart, run: string, pages: seq<PageDoc>, now: real)
    returns (outcomes: seq<Outcome>)
    requires picker.Valid()
    requires picker.startBundle.None?
    requires doc.originalStartUid.Some? && doc.uid.Some?
    modifies picker, picker.pub
    ensures |outcomes| == |pages| + 2 && outcomes[0] == Done
    ensures picker.Valid()
    ensures var md := RunMetadata(doc.originalStartUid.value, doc.uid.value, doc.batchCount);
      && (pages == [] ==>
            && outcomes[1] == Raised(TypeError)
            && picker.pub.sent == old(picker.pub.sent) + [Publication("start", StartOut(run, md))])
      && (pages != [] ==>
            && outcomes[|pages| + 1] == Done
            && picker.data.Some?
            && picker.pub.sent == old(picker.pub.sent)
                 + [Publication("start", StartOut(run, md)),
                    Publication("descriptor", DescriptorOut(run, "primary", DataKeys()))]
                 + StopPublications(RunBundle(run, md), run, picker.data.value, now))
  {
    var md := RunMetadata(doc.originalStartUid.value, doc.uid.value, doc.batchCount);
    ghost var sent0 := picker.pub.sent;
    var first := picker.Start(doc, run);
    outcomes := [first];
    for i := 0 to |pages|
      invariant picker.Valid() && picker.startBundle == Some(RunBundle(run, md))
      invariant |outcomes| == i + 1 && outcomes[0] == Done
      invariant i == 0 ==> picker.pub.sent == sent0 + [Publication("start", StartOut(run, md))] && picker.data.None?
      invariant i > 0 ==> (picker.descBundle == Some(run) && picker.data.Some?
        && picker.pub.sent == sent0 + [Publication("start", StartOut(run, md)),
                                       Publication("descriptor", DescriptorOut(run, "primary", DataKeys()))])
    {
      var o := picker.EventPage(pages[i]);
      outcomes := outcomes + [o];
    }
    var last := picker.Stop(now);
    outcomes := outcomes + [last];
  }
}
