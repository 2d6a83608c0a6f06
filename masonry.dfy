/**
  The masonry component: its stored settings, the choice between its pixel
  and percent width sets, the configuration handed to the client-side
  masonry engine, and the per-breakpoint column widths handed to the CSS
  template.
 */
module Masonry {
  import opened Wrappers
  import opened Decimal
  import opened Viewports

  const UnitPixel := "pixel"
  const UnitPercent := "percent"

  const GridSizerSelector := ".masonry-grid-sizer"
  const GridItemSelector := ".masonry-grid-item"
  const GridClass := "masonry-grid"

  /** The stored settings the core reads; the core never changes them. */
  datatype MasonryComponent = MasonryComponent(
    gutter: int,                 // `Gutter`
    columnUnit: string,          // `ColumnUnit`; any value other than "percent" means pixels
    pixelWidth: ViewportSet,     // `PixelWidth`
    percentWidth: ViewportSet,   // `PercentWidth`
    horizontalOrder: int)        // `HorizontalOrder`, a 0/1 database boolean

  /** A component as created with the declared default values; the two width sets are given. */
  function Defaults(pixelWidth: ViewportSet, percentWidth: ViewportSet): (c: MasonryComponent)
    ensures c.gutter == 10 && c.columnUnit == UnitPixel && c.horizontalOrder == 1
    ensures !IsPercentPosition(c) && IsHorizontalOrder(c)
    ensures c.pixelWidth == pixelWidth && c.percentWidth == percentWidth
  {
    MasonryComponent(10, UnitPixel, pixelWidth, percentWidth, 1)
  }

  // ---------------------------------------------------------------------------
  // Unit selection

  /** `isPercentPosition`: the engine positions items in percent exactly when the column unit is "percent". */
  predicate IsPercentPosition(c: MasonryComponent): (percent: bool)
    ensures percent <==> ColumnUnitCSS(c) == "%"
  {
    c.columnUnit == UnitPercent
  }

  /** The CSS length suffix for the column unit. */
  function ColumnUnitCSS(c: MasonryComponent): (suffix: string)
    ensures suffix == "%" || suffix == "px"
    ensures suffix == "%" <==> c.columnUnit == UnitPercent
  {
    if c.columnUnit == UnitPercent then "%" else "px"
  }

  /** The width set that the column unit makes active. */
  function ColumnWidthData(c: MasonryComponent): (w: ViewportSet)
    ensures c.columnUnit == UnitPercent ==> w == c.percentWidth
    ensures c.columnUnit != UnitPercent ==> w == c.pixelWidth
  {
    if c.columnUnit == UnitPercent then c.percentWidth else c.pixelWidth
  }

  /** The three views of the column unit agree: percent mode, the "%" suffix and the percent set go together. */
  lemma UnitSelectionAgrees(c: MasonryComponent)
    ensures IsPercentPosition(c) <==> ColumnUnitCSS(c) == "%"
    ensures !IsPercentPosition(c) <==> ColumnUnitCSS(c) == "px"
    ensures IsPercentPosition(c) ==> ColumnWidthData(c) == c.percentWidth
    ensures !IsPercentPosition(c) ==> ColumnWidthData(c) == c.pixelWidth
  {
  }

  /** `isHorizontalOrder`: the boolean cast of the stored 0/1 flag, under which any non-zero value is true. */
  predicate IsHorizontalOrder(c: MasonryComponent): (horizontal: bool)
    ensures c.horizontalOrder == 0 ==> !horizontal
    ensures c.horizontalOrder != 0 ==> horizontal
  {
    c.horizontalOrder != 0
  }

  // ---------------------------------------------------------------------------
  // The masonry engine configuration, as an ordered PHP array

  datatype Value = Str(s: string) | Bool(b: bool) | Int(i: int)

  datatype Entry = Entry(key: string, value: Value)

  function Keys(config: seq<Entry>): (keys: seq<string>)
    ensures |keys| == |config|
    ensures forall i :: 0 <= i < |config| ==> keys[i] == config[i].key
  {
    if config == [] then [] else [config[0].key] + Keys(config[1..])
  }

  predicate DistinctKeys(config: seq<Entry>) {
    forall i, j :: 0 <= i < j < |config| ==> config[i].key != config[j].key
  }

  /** The value stored under `key`, or `None` when the array has no such key. */
  function Lookup(config: seq<Entry>, key: string): (r: Option<Value>)
    ensures r.None? <==> key !in Keys(config)
    ensures r.Some? ==> Entry(key, r.value) in config
  {
    if config == [] then None
    else if config[0].key == key then Some(config[0].value)
    else Lookup(config[1..], key)
  }

  /** In an array whose keys are distinct, looking up an entry's key finds that entry's value. */
  lemma {:induction false} LookupAt(config: seq<Entry>, i: nat)
    requires DistinctKeys(config)
    requires i < |config|
    ensures Lookup(config, config[i].key) == Some(config[i].value)
  {
    if i > 0 {
      assert DistinctKeys(config[1..]) by {
        forall k, l | 0 <= k < l < |config| - 1
          ensures config[1..][k].key != config[1..][l].key
        {
          assert config[1..][k] == config[k + 1] && config[1..][l] == config[l + 1];
        }
      }
      LookupAt(config[1..], i - 1);
    }
  }

  const BaseKeys := ["columnWidth", "itemSelector", "percentPosition", "horizontalOrder"]

  /** The configuration the component hands to the masonry engine: the fixed keys, then `gutter` if non-zero. */
  function ConfigOf(c: MasonryComponent): (config: seq<Entry>)
    ensures Keys(config) == BaseKeys + (if c.gutter != 0 then ["gutter"] else [])
    ensures DistinctKeys(config)
  {
    [ Entry("columnWidth", Str(GridSizerSelector)),
      Entry("itemSelector", Str(GridItemSelector)),
      Entry("percentPosition", Bool(IsPercentPosition(c))),
      Entry("horizontalOrder", Bool(IsHorizontalOrder(c))) ]
    + (if c.gutter != 0 then [Entry("gutter", Int(c.gutter))] else [])
  }

  /**
    What the engine reads from the configuration: the two selectors whatever
    the settings, the percent flag, the ordering flag, and a gutter exactly
    when the gutter is non-zero.
   */
  lemma ConfigValues(c: MasonryComponent)
    ensures Lookup(ConfigOf(c), "columnWidth") == Some(Str(GridSizerSelector))
    ensures Lookup(ConfigOf(c), "itemSelector") == Some(Str(GridItemSelector))
    ensures Lookup(ConfigOf(c), "percentPosition") == Some(Bool(IsPercentPosition(c)))
    ensures Lookup(ConfigOf(c), "horizontalOrder") == Some(Bool(IsHorizontalOrder(c)))
    ensures Lookup(ConfigOf(c), "gutter") == if c.gutter != 0 then Some(Int(c.gutter)) else None
  {
    ConfigSelectors(c);
    ConfigFlags(c);
    ConfigGutter(c);
  }

  /** The selector clauses of `ConfigValues`, proved apart only to keep each proof small. */
  lemma ConfigSelectors(c: MasonryComponent)
    ensures Lookup(ConfigOf(c), "columnWidth") == Some(Str(GridSizerSelector))
    ensures Lookup(ConfigOf(c), "itemSelector") == Some(Str(GridItemSelector))
  {
    LookupAt(ConfigOf(c), 0);
    LookupAt(ConfigOf(c), 1);
  }

  /** The two flag clauses of `ConfigValues`, proved apart only to keep each proof small. */
  lemma ConfigFlags(c: MasonryComponent)
    ensures Lookup(ConfigOf(c), "percentPosition") == Some(Bool(IsPercentPosition(c)))
    ensures Lookup(ConfigOf(c), "horizontalOrder") == Some(Bool(IsHorizontalOrder(c)))
  {
    LookupAt(ConfigOf(c), 2);
    LookupAt(ConfigOf(c), 3);
  }

  /** The gutter clause of `ConfigValues`, proved apart only to keep each proof small. */
  lemma ConfigGutter(c: MasonryComponent)
    ensures Lookup(ConfigOf(c), "gutter") == if c.gutter != 0 then Some(Int(c.gutter)) else None
  {
    if c.gutter != 0 {
      LookupAt(ConfigOf(c), 4);
    } else {
      assert "gutter" !in Keys(ConfigOf(c));
    }
  }

  /** `getMasonryConfig`: the four fixed entries, then the gutter entry when the gutter is non-zero. */
  method MasonryConfig(c: MasonryComponent) returns (config: seq<Entry>)
    ensures config == ConfigOf(c)
  {
    config := [
      Entry("columnWidth", Str(GridSizerSelector)),
      Entry("itemSelector", Str(GridItemSelector)),
      Entry("percentPosition", Bool(IsPercentPosition(c))),
      Entry("horizontalOrder", Bool(IsHorizontalOrder(c)))
    ];
    if c.gutter != 0 {
      config := config + [Entry("gutter", Int(c.gutter))];
    }
  }

  /** With a zero gutter the configuration holds exactly its four fixed keys. */
  lemma ZeroGutterHasFourKeys(c: MasonryComponent)
    requires c.gutter == 0
    ensures |ConfigOf(c)| == 4
    ensures Keys(ConfigOf(c)) == BaseKeys
  {
  }

  // ---------------------------------------------------------------------------
  // Grid class names

  /** The class list before any extension has updated it: the single class of the grid container. */
  function GridClassNames(): (names: seq<string>)
    ensures names == ["masonry-grid"]
  {
    [GridClass]
  }

  /** What the declared defaults produce. */
  lemma DefaultSettings(pixelWidth: ViewportSet, percentWidth: ViewportSet)
    ensures var config := ConfigOf(Defaults(pixelWidth, percentWidth));
      && Lookup(config, "percentPosition") == Some(Bool(false))
      && Lookup(config, "horizontalOrder") == Some(Bool(true))
      && Lookup(config, "gutter") == Some(Int(10))
      && |config| == 5
    ensures ColumnUnitCSS(Defaults(pixelWidth, percentWidth)) == "px"
    ensures ColumnWidthData(Defaults(pixelWidth, percentWidth)) == pixelWidth
  {
    ConfigValues(Defaults(pixelWidth, percentWidth));
  }

  // ---------------------------------------------------------------------------
  // Column widths for the CSS template

  datatype WidthRow = WidthRow(width: string, breakpoint: string)

  /** `sprintf('%d%s', value, suffix)`: the value in decimal followed by the unit suffix. */
  function FormatWidth(value: int, suffix: string): (width: string)
    ensures |width| == |IntToDecimal(value)| + |suffix|
    ensures width[..|IntToDecimal(value)|] == IntToDecimal(value)
    ensures width[|width| - |suffix|..] == suffix
  {
    IntToDecimal(value) + suffix
  }

  /** Reads the number back out of a CSS length that ends in `suffix`. */
  function ParseWidth(width: string, suffix: string): Option<int> {
    if |suffix| <= |width| && width[|width| - |suffix|..] == suffix then
      ParseDecimal(width[..|width| - |suffix|])
    else
      None
  }

  lemma FormatWidthRoundTrip(value: int, suffix: string)
    ensures ParseWidth(FormatWidth(value, suffix), suffix) == Some(value)
  {
    var width := FormatWidth(value, suffix);
    assert width[..|width| - |suffix|] == IntToDecimal(value);
    assert width[|width| - |suffix|..] == suffix;
    IntToDecimalRoundTrip(value);
  }

  /** The row emitted for a viewport that holds a value. */
  function RowFor(w: ViewportSet, name: string, suffix: string): WidthRow
    requires name in w.values
  {
    WidthRow(FormatWidth(w.values[name], suffix), w.breakpoint(name))
  }

  /** The rows for the viewports `names`, taken in order, skipping those whose value is unset or zero. */
  function Rows(w: ViewportSet, names: seq<string>, suffix: string): (rows: seq<WidthRow>)
    ensures |rows| <= |names|
  {
    if names == [] then []
    else
      var last := names[|names| - 1];
      Rows(w, names[..|names| - 1], suffix) + (if IsTruthy(w, last) then [RowFor(w, last, suffix)] else [])
  }

  /** The positions in `names` of the viewports whose value is set and non-zero, in increasing order. */
  function TruthyPositions(w: ViewportSet, names: seq<string>): seq<nat> {
    if names == [] then []
    else
      TruthyPositions(w, names[..|names| - 1]) + (if IsTruthy(w, names[|names| - 1]) then [|names| - 1] else [])
  }

  /**
    The rows are exactly one per viewport whose value is set and non-zero,
    in the order of `names`: row k belongs to the k-th such viewport, its
    width is that viewport's value with the unit suffix and its breakpoint
    is that viewport's breakpoint.
   */
  lemma {:induction false} RowsCharacterized(w: ViewportSet, names: seq<string>, suffix: string)
    ensures var p := TruthyPositions(w, names);
      && |Rows(w, names, suffix)| == |p|
      && (forall i :: 0 <= i < |names| ==> (IsTruthy(w, names[i]) <==> i in p))
      && (forall k, l :: 0 <= k < l < |p| ==> p[k] < p[l])
      && (forall k :: 0 <= k < |p| ==>
            && p[k] < |names|
            && IsTruthy(w, names[p[k]])
            && Rows(w, names, suffix)[k] == RowFor(w, names[p[k]], suffix))
  {
    if names != [] {
      var front := names[..|names| - 1];
      RowsCharacterized(w, front, suffix);
      var p := TruthyPositions(w, names);
      var q := TruthyPositions(w, front);
      assert forall k :: 0 <= k < |q| ==> q[k] < |front|;
      forall i | 0 <= i < |names| - 1
        ensures IsTruthy(w, names[i]) <==> i in p
      {
        assert names[i] == front[i];
      }
    }
  }

  /** There are no rows exactly when every viewport is unset or zero. */
  lemma RowsEmpty(w: ViewportSet, names: seq<string>, suffix: string)
    ensures Rows(w, names, suffix) == [] <==> forall i :: 0 <= i < |names| ==> !IsTruthy(w, names[i])
  {
    RowsCharacterized(w, names, suffix);
    var p := TruthyPositions(w, names);
    if |p| > 0 {
      assert IsTruthy(w, names[p[0]]);
    }
  }

  /** Every row's width reads back, in the unit `suffix`, as the value of some viewport. */
  lemma {:induction false} RowsParse(w: ViewportSet, names: seq<string>, suffix: string)
    ensures forall k :: 0 <= k < |Rows(w, names, suffix)| ==> ParseWidth(Rows(w, names, suffix)[k].width, suffix).Some?
  {
    if names != [] {
      var last := names[|names| - 1];
      RowsParse(w, names[..|names| - 1], suffix);
      if IsTruthy(w, last) {
        FormatWidthRoundTrip(w.values[last], suffix);
      }
    }
  }

  /** What `getColumnWidths` answers: the rows of the active width set with the active unit suffix. */
  function ColumnWidthRows(c: MasonryComponent): (rows: seq<WidthRow>)
    ensures |rows| <= |ColumnWidthData(c).names|
    ensures forall k :: 0 <= k < |rows| ==>
      ParseWidth(rows[k].width, ColumnUnitCSS(c)).Some? &&
      rows[k].width[|rows[k].width| - |ColumnUnitCSS(c)|..] == ColumnUnitCSS(c)
  {
    var w, suffix := ColumnWidthData(c), ColumnUnitCSS(c);
    RowsParse(w, w.names, suffix);
    Rows(w, w.names, suffix)
  }

  /** `getColumnWidths`: walks the active set's viewports and pushes a row for each truthy value. */
  method ColumnWidths(c: MasonryComponent) returns (data: seq<WidthRow>)
    ensures data == ColumnWidthRows(c)
  {
    var widths := ColumnWidthData(c);
    var suffix := ColumnUnitCSS(c);
    var names := widths.names;
    data := [];
    var i := 0;
    while i < |names|
      invariant 0 <= i <= |names|
      invariant data == Rows(widths, names[..i], suffix)
    {
      var name := names[i];
      assert names[..i + 1][..i] == names[..i];
      var value := GetField(widths, name);
      if value.Some? && value.value != 0 {
        data := data + [WidthRow(FormatWidth(value.value, suffix), widths.breakpoint(name))];
      }
      i := i + 1;
    }
    assert names[..i] == names;
  }

  /**
    The column widths of a component, stated on its settings. This gathers
    `RowsCharacterized`, the bound on `Rows` and `RowsEmpty` for the active width set
    and active suffix; the one thing it adds is that each width reads back
    (`ParseWidth`) as the viewport's stored value. Row k comes
    from the k-th viewport of the active set (in that set's order) whose
    value is set and non-zero; its width reads back, in the active unit, as
    that value and its breakpoint is that viewport's.
   */
  lemma ColumnWidthRowsSpec(c: MasonryComponent)
    ensures var w := ColumnWidthData(c);
      var rows := ColumnWidthRows(c);
      var p := TruthyPositions(w, w.names);
      && |rows| == |p| <= |w.names|
      && (rows == [] <==> forall i :: 0 <= i < |w.names| ==> !IsTruthy(w, w.names[i]))
      && (forall i :: 0 <= i < |w.names| ==> (IsTruthy(w, w.names[i]) <==> i in p))
      && (forall k, l :: 0 <= k < l < |p| ==> p[k] < p[l])
      && (forall k :: 0 <= k < |rows| ==>
            && p[k] < |w.names|
            && IsTruthy(w, w.names[p[k]])
            && ParseWidth(rows[k].width, ColumnUnitCSS(c)) == GetField(w, w.names[p[k]])
            && rows[k].breakpoint == w.breakpoint(w.names[p[k]]))
  {
    var w := ColumnWidthData(c);
    var suffix := ColumnUnitCSS(c);
    RowsEmpty(w, w.names, suffix);
    RowsCharacterized(w, w.names, suffix);
    var p := TruthyPositions(w, w.names);
    forall k | 0 <= k < |p| ensures ParseWidth(ColumnWidthRows(c)[k].width, suffix) == GetField(w, w.names[p[k]]) {
      FormatWidthRoundTrip(w.values[w.names[p[k]]], suffix);
    }
  }

  // ---------------------------------------------------------------------------
  // Two worked settings

  const ExampleViewports := ["ExtraSmall", "Small", "Medium", "Large", "ExtraLarge"]

  /**
    Pixel unit, Small = 200, Medium = 0, Large = 300, gutter 15, horizontal
    order on: two rows, Medium skipped because its value is zero.
   */
  lemma PixelExampleRows(c: MasonryComponent)
    requires c.columnUnit == UnitPixel
    requires c.pixelWidth.names == ExampleViewports
    requires c.pixelWidth.values == map["Small" := 200, "Medium" := 0, "Large" := 300]
    ensures ColumnWidthRows(c) ==
      [WidthRow("200px", c.pixelWidth.breakpoint("Small")), WidthRow("300px", c.pixelWidth.breakpoint("Large"))]
  {
    ExampleRows(c.pixelWidth);
  }

  lemma ExampleWidths()
    ensures FormatWidth(200, "px") == "200px" && FormatWidth(300, "px") == "300px"
  {
    assert NatToDecimal(20) == NatToDecimal(2) + [DigitChar(0)];
    assert NatToDecimal(200) == NatToDecimal(20) + [DigitChar(0)];
    assert NatToDecimal(30) == NatToDecimal(3) + [DigitChar(0)];
    assert NatToDecimal(300) == NatToDecimal(30) + [DigitChar(0)];
  }

  lemma ExampleRows(w: ViewportSet)
    requires w.names == ExampleViewports
    requires w.values == map["Small" := 200, "Medium" := 0, "Large" := 300]
    ensures Rows(w, w.names, "px") == [WidthRow("200px", w.breakpoint("Small")), WidthRow("300px", w.breakpoint("Large"))]
  {
    ExampleWidths();
    assert !IsTruthy(w, "ExtraSmall") && IsTruthy(w, "Small") && !IsTruthy(w, "Medium");
    assert IsTruthy(w, "Large") && !IsTruthy(w, "ExtraLarge");
    var row1, row2 := WidthRow("200px", w.breakpoint("Small")), WidthRow("300px", w.breakpoint("Large"));
    var names := ExampleViewports;
    assert Rows(w, names[..1], "px") == [];
    assert Rows(w, names[..2], "px") == [row1] by { assert names[..2][..1] == names[..1]; }
    assert Rows(w, names[..3], "px") == [row1] by { assert names[..3][..2] == names[..2]; }
    assert Rows(w, names[..4], "px") == [row1, row2] by { assert names[..4][..3] == names[..3]; }
    assert names[..5][..4] == names[..4];
    assert names[..5] == names;
  }

  /** The configuration for the same settings: pixel positioning, horizontal order, gutter 15. */
  lemma PixelExampleConfig(c: MasonryComponent)
    requires c.gutter == 15 && c.columnUnit == UnitPixel && c.horizontalOrder == 1
    ensures Lookup(ConfigOf(c), "percentPosition") == Some(Bool(false))
    ensures Lookup(ConfigOf(c), "horizontalOrder") == Some(Bool(true))
    ensures Lookup(ConfigOf(c), "gutter") == Some(Int(15))
  {
    ConfigValues(c);
  }

  /** Percent unit, nothing set, gutter 0, horizontal order off: no rows and no gutter key. */
  lemma PercentExample(pixelWidth: ViewportSet, breakpoint: string -> string)
    ensures var c := MasonryComponent(0, UnitPercent, pixelWidth, Empty(ExampleViewports, breakpoint), 0);
      && ColumnWidthRows(c) == []
      && Keys(ConfigOf(c)) == BaseKeys
      && Lookup(ConfigOf(c), "percentPosition") == Some(Bool(true))
      && Lookup(ConfigOf(c), "horizontalOrder") == Some(Bool(false))
      && Lookup(ConfigOf(c), "gutter") == None
  {
    var c := MasonryComponent(0, UnitPercent, pixelWidth, Empty(ExampleViewports, breakpoint), 0);
    ConfigValues(c);
    RowsEmpty(ColumnWidthData(c), ExampleViewports, "%");
  }
}
