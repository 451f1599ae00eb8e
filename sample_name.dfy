/** `parse_name`: the sample names written at the beamline, such as
    `Ti50Cu50_450C_2p5min_1-2_3-4` or `Ti50Cu50_Pristine_1-2_3-4`, read into
    composition, temperature, anneal time, batch and position. */
module SampleName {
  import opened PyCore

  /** The dict `parse_name` returns. The composition keys are slices of at
      most two characters, so they never collide with the four named keys
      that follow them in the dict literal. */
  datatype SampleInfo = SampleInfo(
    composition: map<string, int>,
    temp: real,
    annealTime: real,
    batch: seq<int>,
    position: seq<int>)

  /** The conversions after the split: `float(time.replace("p", ".")[:-3])`,
      `float(temp[:-1])`, the two composition integers, and the `-`-separated
      batch and position tuples. Any failed conversion raises ValueError. */
  function Convert(comp: string, temp: string, time: string, batch: string, coord: string): (r: Result<Option<SampleInfo>>)
    ensures r != Ok(None)
    ensures r.Err? ==> r.error == ValueError
    ensures r.Err? <==>
      || ParseFloat(PySlice(ReplaceChar(time, 'p', '.'), 0, -3)).None? || ParseFloat(PySlice(temp, 0, -1)).None?
      || ParseInt(PySlice(comp, 2, 4)).None? || ParseInt(PySlice(comp, 6, |comp|)).None?
      || ParseInts(Split(batch, '-')).None? || ParseInts(Split(coord, '-')).None?
    ensures r.Ok? ==>
      var info := r.value.value;
      && info.annealTime == ParseFloat(PySlice(ReplaceChar(time, 'p', '.'), 0, -3)).value
      && info.temp == ParseFloat(PySlice(temp, 0, -1)).value
      && info.composition.Keys == {PySlice(comp, 0, 2), PySlice(comp, 4, 6)}
      && info.composition[PySlice(comp, 4, 6)] == ParseInt(PySlice(comp, 6, |comp|)).value
      && (PySlice(comp, 0, 2) != PySlice(comp, 4, 6) ==>
            info.composition[PySlice(comp, 0, 2)] == ParseInt(PySlice(comp, 2, 4)).value)
      && info.batch == ParseInts(Split(batch, '-')).value
      && info.position == ParseInts(Split(coord, '-')).value
  {
    var annealTime := ParseFloat(PySlice(ReplaceChar(time, 'p', '.'), 0, -3));
    var degrees := ParseFloat(PySlice(temp, 0, -1));
    var first := ParseInt(PySlice(comp, 2, 4));
    var second := ParseInt(PySlice(comp, 6, |comp|));
    var batches := ParseInts(Split(batch, '-'));
    var positions := ParseInts(Split(coord, '-'));
    if annealTime.None? || degrees.None? || first.None? || second.None? || batches.None? || positions.None? then
      Err(ValueError)
    else
      var composition := map[PySlice(comp, 0, 2) := first.value][PySlice(comp, 4, 6) := second.value];
      Ok(Some(SampleInfo(composition, degrees.value, annealTime.value, batches.value, positions.value)))
  }

  /** `parse_name(inp)`: `Ok(None)` is the function's `return None`. */
  function ParseName(inp: string): (r: Result<Option<SampleInfo>>)
    ensures r == Ok(None) <==>
      || Contains(inp, "empty")
      || (Count(inp, '_') != 3 && Count(inp, '_') != 4)
      || (Count(inp, '_') == 3 && Split(inp, '_')[1] != "Pristine")
    ensures r.Err? ==> r.error == ValueError
  {
    if Contains(inp, "empty") then Ok(None)
    else
      var parts := Split(inp, '_');
      if |parts| == 5 then Convert(parts[0], parts[1], parts[2], parts[3], parts[4])
      else if |parts| == 4 && parts[1] == "Pristine" then Convert(parts[0], "25C", "0min", parts[2], parts[3])
      else Ok(None)
  }

  /** A five-part name is never skipped: it is read, or it raises
      ValueError exactly when one of its conversions fails. */
  lemma FivePartName(inp: string)
    requires !Contains(inp, "empty") && Count(inp, '_') == 4
    ensures var parts := Split(inp, '_');
      var r := ParseName(inp);
      && r != Ok(None)
      && (r.Err? <==>
            || ParseFloat(PySlice(ReplaceChar(parts[2], 'p', '.'), 0, -3)).None?
            || ParseFloat(PySlice(parts[1], 0, -1)).None?
            || ParseInt(PySlice(parts[0], 2, 4)).None? || ParseInt(PySlice(parts[0], 6, |parts[0]|)).None?
            || ParseInts(Split(parts[3], '-')).None? || ParseInts(Split(parts[4], '-')).None?)
      && r == Convert(parts[0], parts[1], parts[2], parts[3], parts[4])
      && (r.Ok? ==>
            && r.value.value.temp == ParseFloat(PySlice(parts[1], 0, -1)).value
            && r.value.value.annealTime == ParseFloat(PySlice(ReplaceChar(parts[2], 'p', '.'), 0, -3)).value
            && r.value.value.composition.Keys == {PySlice(parts[0], 0, 2), PySlice(parts[0], 4, 6)}
            && r.value.value.composition[PySlice(parts[0], 4, 6)] == ParseInt(PySlice(parts[0], 6, |parts[0]|)).value
            && r.value.value.batch == ParseInts(Split(parts[3], '-')).value
            && r.value.value.position == ParseInts(Split(parts[4], '-')).value)
  {
  }

  // ---------------------------------------------------------------------
  // The Pristine special case
  // ---------------------------------------------------------------------

  lemma PristineConstants()
    ensures ParseFloat(PySlice("25C", 0, -1)) == Some(25.0)
    ensures ParseFloat(PySlice(ReplaceChar("0min", 'p', '.'), 0, -3)) == Some(0.0)
  {
    assert PySlice("25C", 0, -1) == "25";
    assert ShowNat(25) == "25";
    ParseFloatShowNat(25);
    assert ReplaceChar("0min", 'p', '.') == "0min";
    assert PySlice("0min", 0, -3) == "0";
    assert ShowNat(0) == "0";
    ParseFloatShowNat(0);
  }

  /** A four-part Pristine name is read at room temperature (25) with no
      annealing (0); only its composition, batch and position can fail. */
  lemma PristineDefaults(inp: string)
    requires !Contains(inp, "empty")
    requires Count(inp, '_') == 3 && Split(inp, '_')[1] == "Pristine"
    ensures var parts := Split(inp, '_');
      var r := ParseName(inp);
      && (r.Err? <==>
            ParseInt(PySlice(parts[0], 2, 4)).None? || ParseInt(PySlice(parts[0], 6, |parts[0]|)).None?
            || ParseInts(Split(parts[2], '-')).None? || ParseInts(Split(parts[3], '-')).None?)
      && r == Convert(parts[0], "25C", "0min", parts[2], parts[3])
      && (r.Ok? ==> r.value.Some? && r.value.value.temp == 25.0 && r.value.value.annealTime == 0.0)
  {
    PristineConstants();
  }

  // ---------------------------------------------------------------------
  // Round trip: names written in the beamline's convention are read back
  // ---------------------------------------------------------------------

  /** The fields a sample name encodes: two element symbols with their
      amounts (the first one written with two digits), the annealing
      temperature in degrees C, the anneal time in minutes (a whole part and
      optional decimal digits, written with `p` for the point), and the
      batch and position numbers. */
  datatype NameFields = NameFields(
    element1: string, amount1: nat, element2: string, amount2: nat,
    tempC: nat, minutes: nat, minuteDigits: Option<nat>,
    batch: seq<nat>, position: seq<nat>)

  predicate WellFormedFields(f: NameFields)
  {
    && |f.element1| == 2 && |f.element2| == 2 && f.amount1 < 100
    && '_' !in f.element1 && '_' !in f.element2
    && |f.batch| >= 1 && |f.position| >= 1
  }

  function TwoDigits(n: nat): (s: string)
    requires n < 100
    ensures |s| == 2 && AllDigits(s)
  {
    [('0' as int + n / 10) as char, ('0' as int + n % 10) as char]
  }

  function CompositionText(f: NameFields): string
    requires WellFormedFields(f)
  {
    f.element1 + TwoDigits(f.amount1) + f.element2 + ShowNat(f.amount2)
  }

  function TimeText(f: NameFields): string
  {
    match f.minuteDigits
    case None => ShowNat(f.minutes) + "min"
    case Some(d) => ShowNat(f.minutes) + "p" + ShowNat(d) + "min"
  }

  function NameParts(f: NameFields): seq<string>
    requires WellFormedFields(f)
  {
    [CompositionText(f), ShowNat(f.tempC) + "C", TimeText(f),
     Join(ShowNats(f.batch, '-'), '-'), Join(ShowNats(f.position, '-'), '-')]
  }

  /** The name the beamline writes for `f`, e.g. `Ti50Cu50_450C_2p5min_1-2_3-4`. */
  function FormatName(f: NameFields): string
    requires WellFormedFields(f)
  {
    Join(NameParts(f), '_')
  }

  /** The anneal time `f` denotes: `minutes.digits`. */
  function AnnealMinutes(f: NameFields): real
  {
    match f.minuteDigits
    case None => f.minutes as real
    case Some(d) => f.minutes as real + d as real / Pow10(|ShowNat(d)|) as real
  }

  lemma JoinedNatsAvoid(xs: seq<nat>, sep: char, c: char)
    requires !IsDigit(sep) && !IsDigit(c) && sep != c
    ensures c !in Join(ShowNats(xs, sep), sep)
    decreases |xs|
  {
    var parts := ShowNats(xs, sep);
    if |parts| > 1 {
      DigitsExclude(parts[0], c);
      assert ShowNats(xs, sep)[1..] == ShowNats(xs[1..], sep);
      JoinedNatsAvoid(xs[1..], sep, c);
    } else if |parts| == 1 {
      DigitsExclude(parts[0], c);
    }
  }

  lemma PartsAvoidUnderscore(f: NameFields)
    requires WellFormedFields(f)
    ensures forall k :: 0 <= k < |NameParts(f)| ==> '_' !in NameParts(f)[k]
  {
    DigitsExclude(TwoDigits(f.amount1), '_');
    DigitsExclude(ShowNat(f.amount2), '_');
    DigitsExclude(ShowNat(f.tempC), '_');
    DigitsExclude(ShowNat(f.minutes), '_');
    if f.minuteDigits.Some? {
      DigitsExclude(ShowNat(f.minuteDigits.value), '_');
    }
    JoinedNatsAvoid(f.batch, '-', '_');
    JoinedNatsAvoid(f.position, '-', '_');
  }

  lemma ParseTwoDigits(n: nat)
    requires n < 100
    ensures ParseInt(TwoDigits(n)) == Some(n)
  {
    var s := TwoDigits(n);
    assert s[..1] == [s[0]];
    assert DigitsValue(s[..1]) == n / 10;
  }

  lemma CompositionRead(f: NameFields)
    requires WellFormedFields(f)
    ensures var comp := CompositionText(f);
      && PySlice(comp, 0, 2) == f.element1
      && PySlice(comp, 4, 6) == f.element2
      && ParseInt(PySlice(comp, 2, 4)) == Some(f.amount1)
      && ParseInt(PySlice(comp, 6, |comp|)) == Some(f.amount2)
  {
    var comp := CompositionText(f);
    assert PySlice(comp, 0, 2) == comp[0..2] == f.element1;
    assert PySlice(comp, 2, 4) == comp[2..4] == TwoDigits(f.amount1);
    assert PySlice(comp, 4, 6) == comp[4..6] == f.element2;
    assert PySlice(comp, 6, |comp|) == comp[6..] == ShowNat(f.amount2);
    ParseTwoDigits(f.amount1);
    ParseIntShowNat(f.amount2);
  }

  lemma TempRead(t: nat)
    ensures ParseFloat(PySlice(ShowNat(t) + "C", 0, -1)) == Some(t as real)
  {
    var s := ShowNat(t) + "C";
    assert PySlice(s, 0, -1) == s[..|s| - 1] == ShowNat(t);
    ParseFloatShowNat(t);
  }

  lemma DecimalParts(whole: string, frac: string)
    requires whole != [] && AllDigits(whole) && AllDigits(frac)
    ensures ParseDecimal(whole + "." + frac) == Some(DecimalValue(whole, frac))
  {
    var s := whole + "." + frac;
    DigitsExclude(whole, '.');
    assert s == whole + ['.'] + frac;
    assert s[|whole|] == '.';
    IndexOfAfter(whole, '.', frac);
    var i := IndexOf(s, '.');
    assert i == |whole|;
    assert s[..i] == whole;
    assert s[i + 1..] == frac;
  }

  lemma DecimalRead(w: nat, d: nat)
    ensures ParseFloat(ShowNat(w) + "." + ShowNat(d)) == Some(w as real + d as real / Pow10(|ShowNat(d)|) as real)
  {
    var whole, frac := ShowNat(w), ShowNat(d);
    var s := whole + "." + frac;
    assert s[0] == whole[0] && IsDigit(s[0]);
    DecimalParts(whole, frac);
    ShowNatValue(w);
    ShowNatValue(d);
  }

  /** `2min` is read as 2 minutes. */
  lemma WholeTimeRead(w: nat)
    ensures ParseFloat(PySlice(ReplaceChar(ShowNat(w) + "min", 'p', '.'), 0, -3)) == Some(w as real)
  {
    var s := ShowNat(w) + "min";
    DigitsExclude(ShowNat(w), 'p');
    ReplaceCharAbsent(s, 'p', '.');
    assert PySlice(s, 0, -3) == s[..|s| - 3] == ShowNat(w);
    ParseFloatShowNat(w);
  }

  /** `2p5min` is read as 2.5 minutes: the `p` becomes the decimal point. */
  lemma DecimalTimeRead(w: nat, d: nat)
    ensures ParseFloat(PySlice(ReplaceChar(ShowNat(w) + "p" + ShowNat(d) + "min", 'p', '.'), 0, -3))
         == Some(w as real + d as real / Pow10(|ShowNat(d)|) as real)
  {
    var ws, ds := ShowNat(w), ShowNat(d);
    DigitsExclude(ws, 'p');
    DigitsExclude(ds, 'p');
    ReplaceCharConcat(ws + "p" + ds, "min", 'p', '.');
    ReplaceCharConcat(ws + "p", ds, 'p', '.');
    ReplaceCharConcat(ws, "p", 'p', '.');
    ReplaceCharAbsent(ws, 'p', '.');
    ReplaceCharAbsent(ds, 'p', '.');
    ReplaceCharAbsent("min", 'p', '.');
    assert ReplaceChar("p", 'p', '.') == ".";
    var t := ws + "." + ds + "min";
    assert ReplaceChar(ws + "p" + ds + "min", 'p', '.') == t;
    assert PySlice(t, 0, -3) == t[..|t| - 3] == ws + "." + ds;
    DecimalRead(w, d);
  }

  lemma TimeRead(f: NameFields)
    ensures ParseFloat(PySlice(ReplaceChar(TimeText(f), 'p', '.'), 0, -3)) == Some(AnnealMinutes(f))
  {
    match f.minuteDigits
    case None => WholeTimeRead(f.minutes);
    case Some(d) => DecimalTimeRead(f.minutes, d);
  }

  /** Reading back a name written in the beamline's convention recovers
      every field: the composition map, the temperature, the anneal time
      (with `p` read as the decimal point), the batch and the position. */
  lemma ParseFormattedName(f: NameFields)
    requires WellFormedFields(f)
    requires !Contains(FormatName(f), "empty")
    ensures ParseName(FormatName(f)) ==
      Ok(Some(SampleInfo(map[f.element1 := f.amount1 as int][f.element2 := f.amount2 as int],
                         f.tempC as real, AnnealMinutes(f), f.batch, f.position)))
  {
    var parts := NameParts(f);
    PartsAvoidUnderscore(f);
    SplitJoin(parts, '_');
    assert Split(FormatName(f), '_') == parts;
    CompositionRead(f);
    TempRead(f.tempC);
    TimeRead(f);
    ParseJoinedNats(f.batch, '-');
    ParseJoinedNats(f.position, '-');
  }
}
