/** parseTimeScaleUpdate: the bars of a "timescale_update" envelope, found
    at p[1].price.s, each element's "v" array mapped positionally onto the
    six fields of a bar. */
module Series {
  import opened Outcomes
  import opened JsonModel

  /** The HLOC record of timescale.go. */
  datatype Bar = Bar(time: int, open: real, high: real, low: real, close: real, volume: int)

  /** The zero value Go gives `var h HLOC`. */
  const ZeroBar := Bar(0, 0.0, 0.0, 0.0, 0.0, 0)

  /** Go's int64(x) conversion of a float: truncation toward zero. */
  function Truncate(x: real): (i: int)
    ensures x >= 0.0 ==> i as real <= x < i as real + 1.0
    ensures x < 0.0 ==> i as real - 1.0 < x <= i as real
  {
    if x >= 0.0 then x.Floor else -((-x).Floor)
  }

  /** The switch arm for position j of "v"; positions past 5 change nothing. */
  function Assign(h: Bar, j: nat, x: real): Bar
  {
    if j == 0 then h.(time := Truncate(x))
    else if j == 1 then h.(open := x)
    else if j == 2 then h.(high := x)
    else if j == 3 then h.(low := x)
    else if j == 4 then h.(close := x)
    else if j == 5 then h.(volume := Truncate(x))
    else h
  }

  /** The bar built from a "v" array, position by position. The assertion
      val.(float64) panics on a non-number at positions 0 to 5; later
      positions are not looked at. */
  function BarFrom(vals: seq<Json>): Outcome<Bar>
    decreases |vals|
  {
    if vals == [] then Ok(ZeroBar)
    else
      var j := |vals| - 1;
      match BarFrom(vals[..j])
      case Ok(h) =>
        if j >= 6 then Ok(h)
        else if vals[j].JNumber? then Ok(Assign(h, j, vals[j].n))
        else Panicked
      case Failed(e) => Failed(e)
      case Panicked => Panicked
  }

  /** One element of price.s: v.(map[string]any) and amap["v"].([]any) panic
      unless it is an object whose "v" is an array. */
  function ElementBar(e: Json): Outcome<Bar>
  {
    if e.JObject? && "v" in e.fields && e.fields["v"].JArray? then BarFrom(e.fields["v"].elems)
    else Panicked
  }

  /** The bars of all elements in order; the first panic wins. */
  function BarsOf(elems: seq<Json>): Outcome<seq<Bar>>
    decreases |elems|
  {
    if elems == [] then Ok([])
    else
      match BarsOf(elems[..|elems| - 1])
      case Ok(bs) =>
        (match ElementBar(elems[|elems| - 1])
         case Ok(b) => Ok(bs + [b])
         case Failed(e) => Failed(e)
         case Panicked => Panicked)
      case Failed(e) => Failed(e)
      case Panicked => Panicked
  }

  /** What parseTimeScaleUpdate returns for the decoded envelope object `d`.
      A missing or null "price" or "s" is the "parsing error"; every other
      wrong shape on the path is a failed type assertion, hence a panic. */
  function SeriesBars(d: map<string, Json>): Outcome<seq<Bar>>
  {
    if "p" !in d || !d["p"].JArray? then Panicked
    else
      var p := d["p"].elems;
      if |p| < 2 then Failed(SeriesShape)
      else if !p[1].JObject? then Panicked
      else
        var amap := p[1].fields;
        if IsNil(amap, "price") then Failed(SeriesShape)
        else if !amap["price"].JObject? then Panicked
        else
          var price := amap["price"].fields;
          if IsNil(price, "s") then Failed(SeriesShape)
          else if !price["s"].JArray? then Panicked
          else BarsOf(price["s"].elems)
  }

  /** parseTimeScaleUpdate's loops: `hloc` grows by one bar per element of
      price.s, and each bar is filled by the switch over the positions of "v". */
  method ParseTimeScaleUpdate(d: map<string, Json>) returns (r: Outcome<seq<Bar>>)
    ensures r == SeriesBars(d)
  {
    if "p" !in d || !d["p"].JArray? {
      return Panicked;
    }
    var p := d["p"].elems;
    if |p| < 2 {
      return Failed(SeriesShape);
    }
    if !p[1].JObject? {
      return Panicked;
    }
    var amap := p[1].fields;
    if IsNil(amap, "price") {
      return Failed(SeriesShape);
    }
    if !amap["price"].JObject? {
      return Panicked;
    }
    var a := amap["price"].fields;
    if IsNil(a, "s") {
      return Failed(SeriesShape);
    }
    if !a["s"].JArray? {
      return Panicked;
    }
    var s := a["s"].elems;
    var hloc: seq<Bar> := [];
    for k := 0 to |s|
      invariant BarsOf(s[..k]) == Ok(hloc)
    {
      var v := s[k];
      assert s[..k + 1][..k] == s[..k];
      if !(v.JObject? && "v" in v.fields && v.fields["v"].JArray?) {
        BarsPanicPropagates(s, k + 1);
        return Panicked;
      }
      var vals := v.fields["v"].elems;
      var h := ZeroBar;
      for j := 0 to |vals|
        invariant BarFrom(vals[..j]) == Ok(h)
      {
        var val := vals[j];
        assert vals[..j + 1][..j] == vals[..j];
        if j < 6 {
          if !val.JNumber? {
            BarPanicPropagates(vals, j + 1);
            BarsElementPanics(s, k);
            BarsPanicPropagates(s, k + 1);
            return Panicked;
          }
          match j {
            case 0 => h := h.(time := Truncate(val.n));
            case 1 => h := h.(open := val.n);
            case 2 => h := h.(high := val.n);
            case 3 => h := h.(low := val.n);
            case 4 => h := h.(close := val.n);
            case 5 => h := h.(volume := Truncate(val.n));
          }
        }
      }
      assert vals[..|vals|] == vals;
      hloc := hloc + [h];
    }
    assert s[..|s|] == s;
    r := Ok(hloc);
  }

  lemma {:induction false} BarPanicPropagates(vals: seq<Json>, k: nat)
    requires k <= |vals| && BarFrom(vals[..k]) == Panicked
    ensures BarFrom(vals) == Panicked
    decreases |vals|
  {
    if k == |vals| {
      assert vals[..k] == vals;
    } else {
      assert vals[..|vals| - 1][..k] == vals[..k];
      BarPanicPropagates(vals[..|vals| - 1], k);
    }
  }

  lemma {:induction false} BarsPanicPropagates(elems: seq<Json>, k: nat)
    requires k <= |elems| && BarsOf(elems[..k]) == Panicked
    ensures BarsOf(elems) == Panicked
    decreases |elems|
  {
    if k == |elems| {
      assert elems[..k] == elems;
    } else {
      assert elems[..|elems| - 1][..k] == elems[..k];
      BarsPanicPropagates(elems[..|elems| - 1], k);
    }
  }

  lemma BarsElementPanics(elems: seq<Json>, k: nat)
    requires k < |elems| && BarsOf(elems[..k]).Ok? && ElementBar(elems[k]) == Panicked
    ensures BarsOf(elems[..k + 1]) == Panicked
  {
    assert elems[..k + 1][..k] == elems[..k];
  }

  /** All or nothing, in order: the parse succeeds exactly when every element
      gives a bar, and then bar i is the bar of element i. */
  lemma {:induction false} BarsOfElementwise(elems: seq<Json>)
    ensures BarsOf(elems).Ok? <==> forall i :: 0 <= i < |elems| ==> ElementBar(elems[i]).Ok?
    ensures BarsOf(elems).Ok? ==>
              && |BarsOf(elems).value| == |elems|
              && forall i :: 0 <= i < |elems| ==> BarsOf(elems).value[i] == ElementBar(elems[i]).value
    ensures !BarsOf(elems).Failed?
    decreases |elems|
  {
    if elems != [] {
      var init := elems[..|elems| - 1];
      BarsOfElementwise(init);
      assert forall i :: 0 <= i < |init| ==> init[i] == elems[i];
      BarFromNeverFails(if elems[|elems| - 1].JObject? && "v" in elems[|elems| - 1].fields
        && elems[|elems| - 1].fields["v"].JArray? then elems[|elems| - 1].fields["v"].elems else []);
    }
  }

  lemma {:induction false} BarFromNeverFails(vals: seq<Json>)
    ensures !BarFrom(vals).Failed?
    decreases |vals|
  {
    if vals != [] {
      BarFromNeverFails(vals[..|vals| - 1]);
    }
  }

  /** The value at position j of "v", or the zero value when "v" is shorter. */
  function At(vals: seq<Json>, j: nat): real
  {
    if j < |vals| && vals[j].JNumber? then vals[j].n else 0.0
  }

  /** Positional mapping: a bar exists exactly when positions 0 to 5 that
      are present hold numbers, and then its fields are time, open, high,
      low, close and volume in that order; missing positions stay zero. */
  lemma {:induction false} BarFromPositions(vals: seq<Json>)
    ensures BarFrom(vals).Ok? <==> forall j :: 0 <= j < |vals| && j < 6 ==> vals[j].JNumber?
    ensures BarFrom(vals).Ok? ==>
              BarFrom(vals).value ==
              Bar(Truncate(At(vals, 0)), At(vals, 1), At(vals, 2), At(vals, 3), At(vals, 4), Truncate(At(vals, 5)))
    decreases |vals|
  {
    if vals == [] {
      assert Truncate(0.0) == 0;
    } else {
      var init := vals[..|vals| - 1];
      BarFromPositions(init);
      BarFromNeverFails(init);
      assert forall j :: 0 <= j < |init| ==> init[j] == vals[j];
      assert forall j :: 0 <= j < 6 && j != |vals| - 1 ==> At(init, j) == At(vals, j);
      assert |vals| <= 6 ==> Truncate(At(init, |vals| - 1)) == 0;
    }
  }
}
