/** The box: the child component whose style follows the display mode, the
    column grid and the breakpoints its container injects (src/components/box.js). */
module Box {
  import opened Wrappers
  import opened JsValues
  import opened Css
  import opened Breakpoints

  /** `flexDefaults`. */
  const FlexDefaults: Props := map["order" := Num(1), "flex" := Str("1"), "flexAlign" := Str("auto"),
                                   "col" := Num(1), "push" := Num(0)]

  /** `gridDefaults`. */
  const GridDefaults: Props := map["area" := Null, "column" := Null, "row" := Null]

  /** `Box.defaultProps = {...flexDefaults, ...gridDefaults}`. */
  const Defaults: Props := FlexDefaults + GridDefaults

  /** The props of a `<Box>` element created with the props `user`. */
  function Element(user: Props): (p: Props)
    ensures forall k :: k in Defaults && Get(user, k) == Undefined ==> Get(p, k) == Defaults[k]
    ensures forall k :: Get(user, k) != Undefined ==> Get(p, k) == Get(user, k)
    ensures Get(p, "col") != Undefined && Get(p, "push") != Undefined
    ensures Get(user, "col") == Undefined ==> Get(p, "col") == Num(1)
    ensures Get(user, "push") == Undefined ==> Get(p, "push") == Num(0)
    ensures forall k :: k !in Defaults ==> Get(p, k) == Get(user, k)
  {
    WithDefaults(user, Defaults)
  }

  /** A box whose user sets none of the defaulted props is a flex item of
      order 1 that grows (`flex: '1'`), aligns itself `auto`, spans one
      column with no push, and has no grid placement. */
  lemma ElementDefaults(user: Props)
    requires forall k :: k in Defaults ==> Get(user, k) == Undefined
    ensures var p := Element(user);
      && Get(p, "order") == Num(1) && Get(p, "flex") == Str("1") && Get(p, "flexAlign") == Str("auto")
      && Get(p, "col") == Num(1) && Get(p, "push") == Num(0)
      && Get(p, "area") == Null && Get(p, "column") == Null && Get(p, "row") == Null
  {
    assert "order" in Defaults && "flex" in Defaults && "flexAlign" in Defaults;
    assert "col" in Defaults && "push" in Defaults;
    assert "area" in Defaults && "column" in Defaults && "row" in Defaults;
  }

  predicate IsFlexDisplay(v: Value)
  {
    v == Str("flex") || v == Str("inline-flex")
  }

  predicate IsGridDisplay(v: Value)
  {
    v == Str("grid") || v == Str("inline-grid")
  }

  /** `property: ${(props[key] / props.columns) * 100}%`. */
  function Span(p: Props, key: string, property: string): Decl
  {
    Decl(property, Percent(Percentage(Get(p, key), Get(p, "columns"))))
  }

  const BoxSizing: seq<Rule> := [Plain(Decl("box-sizing", Text("border-box")))]

  /** Debug mode: a dashed border. */
  function DebugBorder(p: Props): (r: seq<Rule>)
    ensures PlainWithin(r, {"border"})
    ensures Declares(r, "border") <==> Truthy(Get(p, "debug"))
    ensures Truthy(Get(p, "debug")) ==> r == [Plain(Decl("border", Text("1px dashed black")))]
    ensures !Truthy(Get(p, "debug")) ==> r == []
  {
    var d := Decl("border", Text("1px dashed black"));
    DeclaresSingle(d, "border");
    if Truthy(Get(p, "debug")) then [Plain(d)] else []
  }

  /** The flex item: `order`, `flex` unless the column grid is in use, and
      `align-self`, all only in a flex display. */
  function FlexItem(p: Props): (r: seq<Rule>)
    ensures PlainWithin(r, {"order", "flex", "align-self"})
    ensures Declares(r, "order") <==> IsFlexDisplay(Get(p, "display"))
    ensures Declares(r, "align-self") <==> IsFlexDisplay(Get(p, "display"))
    ensures Declares(r, "flex") <==> IsFlexDisplay(Get(p, "display")) && !Truthy(Get(p, "useGrid"))
    ensures IsFlexDisplay(Get(p, "display")) ==>
      r[0] == Plain(Written(p, "order", "order")) && r[|r| - 1] == Plain(Written(p, "flexAlign", "align-self"))
    ensures IsFlexDisplay(Get(p, "display")) && !Truthy(Get(p, "useGrid")) ==>
      |r| == 3 && r[1] == Plain(Written(p, "flex", "flex"))
    ensures IsFlexDisplay(Get(p, "display")) && Truthy(Get(p, "useGrid")) ==> |r| == 2
    ensures !IsFlexDisplay(Get(p, "display")) ==> r == []
  {
    if IsFlexDisplay(Get(p, "display")) then
      var r := [Plain(Written(p, "order", "order"))]
        + (if Truthy(Get(p, "useGrid")) then [] else [Plain(Written(p, "flex", "flex"))])
        + [Plain(Written(p, "flexAlign", "align-self"))];
      assert r[0].decl.property == "order";
      assert r[|r| - 1].decl.property == "align-self";
      assert !Truthy(Get(p, "useGrid")) ==> r[1].decl.property == "flex";
      r
    else []
  }

  /** The media block of one breakpoint under the column grid: `width` when
      `col-<bp>` is truthy, `margin-left` when `push-<bp>` is truthy. */
  function SizingBody(p: Props, e: Entry): (r: seq<Decl>)
    ensures (exists i :: 0 <= i < |r| && r[i].property == "width") <==> Truthy(Get(p, Key("col", e.0)))
    ensures (exists i :: 0 <= i < |r| && r[i].property == "margin-left") <==> Truthy(Get(p, Key("push", e.0)))
    ensures forall i :: 0 <= i < |r| && r[i].property == "width" ==> r[i] == Span(p, Key("col", e.0), "width")
    ensures forall i :: 0 <= i < |r| && r[i].property == "margin-left" ==> r[i] == Span(p, Key("push", e.0), "margin-left")
    ensures |r| <= 2 && (|r| == 1 ==> r[0].property in {"width", "margin-left"})
    ensures |r| == 2 ==> r[0].property == "width" && r[1].property == "margin-left"
  {
    var w := if Truthy(Get(p, Key("col", e.0))) then [Span(p, Key("col", e.0), "width")] else [];
    var m := if Truthy(Get(p, Key("push", e.0))) then [Span(p, Key("push", e.0), "margin-left")] else [];
    assert Truthy(Get(p, Key("col", e.0))) ==> (w + m)[0].property == "width";
    assert Truthy(Get(p, Key("push", e.0))) ==> (w + m)[|w|].property == "margin-left";
    w + m
  }

  /** The callback of the column-grid section: a fragment that never throws
      and is a single media block at the breakpoint's threshold. */
  function SizingFragment(p: Props): (f: Entry -> Style)
    ensures forall e: Entry :: f(e) == Ok([Media(e.1, SizingBody(p, e))])
  {
    (e: Entry) => Ok([Media(e.1, SizingBody(p, e))])
  }

  /** The column grid of a flex parent with `useGrid`: base width and left
      margin as fractions of `columns`, then one media block per breakpoint. */
  function ColumnGrid(p: Props): (r: Style)
    ensures !Truthy(Get(p, "useGrid")) ==> r == Ok([])
    ensures r.Ok? && Truthy(Get(p, "useGrid")) ==>
      |r.value| >= 2 && r.value[0] == Plain(Span(p, "col", "width")) && r.value[1] == Plain(Span(p, "push", "margin-left"))
    ensures r.Ok? ==> PlainWithin(r.value, {"width", "margin-left"})
    ensures r.Ok? ==> (Declares(r.value, "width") <==> Truthy(Get(p, "useGrid")))
    ensures r.Ok? ==> (Declares(r.value, "margin-left") <==> Truthy(Get(p, "useGrid")))
  {
    if !Truthy(Get(p, "useGrid")) then Ok([])
    else
      match Section(p, SizingFragment(p))
      case Err(e) => Err(e)
      case Ok(media) =>
        MediaSectionPlainWithin(TableOf(Get(p, "breakPoints")).value, SizingFragment(p), {});
        BaseThenMedia(Span(p, "col", "width"), Span(p, "push", "margin-left"), media);
        Ok([Plain(Span(p, "col", "width")), Plain(Span(p, "push", "margin-left"))] + media)
  }

  /** A width and a margin declaration followed by rules that declare
      nothing outside media blocks. */
  lemma BaseThenMedia(w: Decl, m: Decl, media: seq<Rule>)
    requires w.property == "width" && m.property == "margin-left"
    requires PlainWithin(media, {})
    ensures var r := [Plain(w), Plain(m)] + media;
      && PlainWithin(r, {"width", "margin-left"})
      && Declares(r, "width") && Declares(r, "margin-left")
  {
    var base := [Plain(w), Plain(m)];
    assert PlainWithin(base, {"width", "margin-left"});
    PlainWithinConcat(base, media, {"width", "margin-left"});
    assert (base + media)[0] == Plain(w) && (base + media)[1] == Plain(m);
  }

  /** `v[i]` for the values a truthy `column` or `row` prop can have. */
  function Index(v: Value, i: nat): Value
  {
    match v
    case Arr(xs) => if i < |xs| then xs[i] else Undefined
    case Str(s) => if i < |s| then Str([s[i]]) else Undefined
    case Obj(t) => Lookup(t, IntToDecimal(i))
    case _ => Undefined
  }

  /** `table[name]` for a breakpoint-table object. */
  function Lookup(t: Table, name: string): Value
  {
    if t == [] then Undefined else if t[0].0 == name then Num(t[0].1) else Lookup(t[1..], name)
  }

  /** `${v[0]} / ${v[1]}`: the first two items of an array or characters of
      a string; a missing one is written `undefined`. */
  function Range(v: Value): (r: string)
    ensures v.Arr? && |v.items| >= 2 ==> r == ToText(v.items[0]) + " / " + ToText(v.items[1])
    ensures v.Arr? && |v.items| == 1 ==> r == ToText(v.items[0]) + " / undefined"
    ensures v.Str? && |v.s| >= 2 ==> r == [v.s[0]] + " / " + [v.s[1]]
    ensures v.Str? && |v.s| == 1 ==> r == v.s + " / undefined"
    ensures v == Arr([]) ==> r == "undefined / undefined"
    ensures v.Bool? || v.Num? ==> r == "undefined / undefined"
  {
    ToText(Index(v, 0)) + " / " + ToText(Index(v, 1))
  }

  /** The grid item: `grid-area`, `grid-column` and `grid-row`, each when its
      prop is truthy, all only in a grid display. */
  function Placement(p: Props): (r: seq<Rule>)
    ensures PlainWithin(r, {"grid-area", "grid-column", "grid-row"})
    ensures Declares(r, "grid-area") <==> IsGridDisplay(Get(p, "display")) && Truthy(Get(p, "area"))
    ensures Declares(r, "grid-column") <==> IsGridDisplay(Get(p, "display")) && Truthy(Get(p, "column"))
    ensures Declares(r, "grid-row") <==> IsGridDisplay(Get(p, "display")) && Truthy(Get(p, "row"))
    ensures forall i :: 0 <= i < |r| && r[i].Plain? && r[i].decl.property == "grid-area" ==>
      r[i].decl.value == Text(ToText(Get(p, "area")))
    ensures forall i :: 0 <= i < |r| && r[i].Plain? && r[i].decl.property == "grid-column" ==>
      r[i].decl.value == Text(Range(Get(p, "column")))
    ensures forall i :: 0 <= i < |r| && r[i].Plain? && r[i].decl.property == "grid-row" ==>
      r[i].decl.value == Text(Range(Get(p, "row")))
    ensures forall i :: 0 <= i < |r| ==> r[i].Plain?
    ensures forall i, j :: 0 <= i < j < |r| ==> r[i].decl.property != r[j].decl.property
    ensures !IsGridDisplay(Get(p, "display")) ==> r == []
  {
    if IsGridDisplay(Get(p, "display")) then
      var a := Written(p, "area", "grid-area");
      var c := Decl("grid-column", Text(Range(Get(p, "column"))));
      var w := Decl("grid-row", Text(Range(Get(p, "row"))));
      PresentThree(a, c, w, Truthy(Get(p, "area")), Truthy(Get(p, "column")), Truthy(Get(p, "row")));
      Present(Truthy(Get(p, "area")), a) + Present(Truthy(Get(p, "column")), c) + Present(Truthy(Get(p, "row")), w)
    else []
  }

  /** The declaration `d` when `present` holds, nothing otherwise. */
  function Present(present: bool, d: Decl): seq<Rule>
  {
    if present then [Plain(d)] else []
  }

  /** Up to three declarations of distinct properties in a row: each
      property is declared exactly when its flag is set, and only as its
      own declaration. */
  lemma PresentThree(x: Decl, y: Decl, z: Decl, cx: bool, cy: bool, cz: bool)
    requires x.property != y.property && y.property != z.property && x.property != z.property
    ensures var r := Present(cx, x) + Present(cy, y) + Present(cz, z);
      && PlainWithin(r, {x.property, y.property, z.property})
      && (Declares(r, x.property) <==> cx)
      && (Declares(r, y.property) <==> cy)
      && (Declares(r, z.property) <==> cz)
      && (forall i :: 0 <= i < |r| && r[i].Plain? && r[i].decl.property == x.property ==> r[i].decl == x)
      && (forall i :: 0 <= i < |r| && r[i].Plain? && r[i].decl.property == y.property ==> r[i].decl == y)
      && (forall i :: 0 <= i < |r| && r[i].Plain? && r[i].decl.property == z.property ==> r[i].decl == z)
      && (forall i :: 0 <= i < |r| ==> r[i].Plain?)
      && (forall i, j :: 0 <= i < j < |r| ==> r[i].decl.property != r[j].decl.property)
  {
    var r := Present(cx, x) + Present(cy, y) + Present(cz, z);
    assert forall i :: 0 <= i < |r| ==> r[i] == Plain(x) || r[i] == Plain(y) || r[i] == Plain(z);
    if cx { assert r[0] == Plain(x); }
    if cy { assert r[|Present(cx, x)|] == Plain(y); }
    if cz { assert r[|r| - 1] == Plain(z); }
  }

  /** The `area-`, `column-` and `row-` overrides: a media block with
      `property: ${props['<prefix>-<bp>']}` for each breakpoint whose prop is truthy. */
  function OverrideFragment(p: Props, prefix: string, property: string): (f: Entry -> Style)
    ensures forall e: Entry :: f(e).Ok?
    ensures forall e: Entry :: !Truthy(Get(p, Key(prefix, e.0))) ==> f(e) == Ok([])
    ensures forall e: Entry :: Truthy(Get(p, Key(prefix, e.0))) ==>
      f(e) == Ok([Media(e.1, [Decl(property, Text(ToText(Get(p, Key(prefix, e.0)))))])])
  {
    (e: Entry) => if Truthy(Get(p, Key(prefix, e.0)))
         then Ok([Media(e.1, [Written(p, Key(prefix, e.0), property)])])
         else Ok([])
  }

  /** `hidden-<bp>`: `display: none` inside that breakpoint's media block. */
  function HiddenFragment(p: Props): (f: Entry -> Style)
    ensures forall e: Entry :: !Truthy(Get(p, Key("hidden", e.0))) ==> f(e) == Ok([])
    ensures forall e: Entry :: Truthy(Get(p, Key("hidden", e.0))) ==>
      f(e) == Ok([Media(e.1, [Decl("display", Text("none"))])])
  {
    (e: Entry) => if Truthy(Get(p, Key("hidden", e.0)))
         then Ok([Media(e.1, [Decl("display", Text("none"))])])
         else Ok([])
  }

  /** `show-<bp>`: an unconditional `display: none`, then `display: block`
      inside that breakpoint's media block. */
  function ShowFragment(p: Props): (f: Entry -> Style)
    ensures forall e: Entry :: !Truthy(Get(p, Key("show", e.0))) ==> f(e) == Ok([])
    ensures forall e: Entry :: Truthy(Get(p, Key("show", e.0))) ==>
      f(e) == Ok([Plain(Decl("display", Text("none"))), Media(e.1, [Decl("display", Text("block"))])])
  {
    (e: Entry) => if Truthy(Get(p, Key("show", e.0)))
         then Ok([Plain(Decl("display", Text("none"))), Media(e.1, [Decl("display", Text("block"))])])
         else Ok([])
  }

  /** The parts of `BoxContainer`, in template order: the literal
      `box-sizing` declaration, then the nine interpolations. */
  function Sections(p: Props): (r: seq<Style>)
    ensures |r| == 10
    ensures r[0] == Ok([Plain(Decl("box-sizing", Text("border-box")))])
  {
    [ Ok(BoxSizing),
      Ok(DebugBorder(p)),
      Ok(FlexItem(p)),
      ColumnGrid(p),
      Ok(Placement(p)),
      Section(p, OverrideFragment(p, "area", "grid-area")),
      Section(p, OverrideFragment(p, "column", "grid-column")),
      Section(p, OverrideFragment(p, "row", "grid-row")),
      Section(p, HiddenFragment(p)),
      Section(p, ShowFragment(p)) ]
  }

  /** Of the box's interpolations only the column grid and the five
      breakpoint sections can throw: the debug border, the flex item and
      the grid placement always succeed. */
  lemma SectionsThatThrow(p: Props)
    ensures Sections(p)[0].Ok? && Sections(p)[1].Ok? && Sections(p)[2].Ok? && Sections(p)[4].Ok?
  {
    var parts := Sections(p);
    assert parts[1] == Ok(DebugBorder(p)) && parts[2] == Ok(FlexItem(p)) && parts[4] == Ok(Placement(p));
  }

  /** The style of a box with props `p`. */
  function Style(p: Props): (r: Style)
    ensures r.Ok? <==> forall i :: 0 <= i < |Sections(p)| ==> Sections(p)[i].Ok?
    ensures r.Ok? ==> r.value == Values(Sections(p))
    ensures r.Ok? ==> |r.value| >= 1 && r.value[0] == Plain(Decl("box-sizing", Text("border-box")))
  {
    var r := Chain(Sections(p));
    if r.Ok? then
      assert Sections(p)[0] == Ok(BoxSizing);
      r
    else r
  }

  // ---------------------------------------------------------------------
  // Properties

  /** Under the column grid the box declares its base width and margin, then
      exactly one media block per breakpoint, the last table entry first,
      whether or not `col-<bp>` or `push-<bp>` is set. */
  lemma ColumnGridBlocks(p: Props, t: Table)
    requires Truthy(Get(p, "useGrid"))
    requires Get(p, "breakPoints") == Obj(t)
    ensures t == [] ==> ColumnGrid(p) == Err(ReduceOfEmptyArray)
    ensures t != [] ==> ColumnGrid(p).Ok?
    ensures t != [] ==>
      var r, rt := ColumnGrid(p).value, Reverse(t);
      && |r| == 2 + |t|
      && r[0] == Plain(Span(p, "col", "width"))
      && r[1] == Plain(Span(p, "push", "margin-left"))
      && forall k :: 0 <= k < |t| ==> r[2 + k] == Media(rt[k].1, SizingBody(p, rt[k]))
  {
    if t != [] {
      ColumnGridOfTable(p, t);
    }
  }

  lemma ColumnGridOfTable(p: Props, t: Table)
    requires Truthy(Get(p, "useGrid"))
    requires Get(p, "breakPoints") == Obj(t) && t != []
    ensures ColumnGrid(p).Ok?
    ensures var r, rt := ColumnGrid(p).value, Reverse(t);
      && |r| == 2 + |t|
      && r[0] == Plain(Span(p, "col", "width"))
      && r[1] == Plain(Span(p, "push", "margin-left"))
      && forall k :: 0 <= k < |t| ==> r[2 + k] == Media(rt[k].1, SizingBody(p, rt[k]))
  {
    SizingBlocks(p, t);
    var media := MediaSection(t, SizingFragment(p)).value;
    ColumnGridValue(p, media);
    var r, rt := ColumnGrid(p).value, Reverse(t);
    assert r[2..] == media;
    forall k | 0 <= k < |t| ensures r[2 + k] == Media(rt[k].1, SizingBody(p, rt[k])) {
      assert r[2 + k] == media[k];
    }
  }

  lemma ColumnGridValue(p: Props, media: seq<Rule>)
    requires Truthy(Get(p, "useGrid")) && Section(p, SizingFragment(p)) == Ok(media)
    ensures ColumnGrid(p) == Ok([Plain(Span(p, "col", "width")), Plain(Span(p, "push", "margin-left"))] + media)
  {
  }

  lemma SizingBlocks(p: Props, t: Table)
    requires t != []
    ensures MediaSection(t, SizingFragment(p)).Ok?
    ensures var r, rt := MediaSection(t, SizingFragment(p)).value, Reverse(t);
      && |r| == |t|
      && forall k :: 0 <= k < |t| ==> r[k] == Media(rt[k].1, SizingBody(p, rt[k]))
  {
    var f := SizingFragment(p);
    assert MediaSection(t, f).Ok?;
    CollectSingles(Reverse(t), f);
  }

  /** With integer `col`, `push` and a non-zero `columns`, the base width
      and margin are exact percentages of the row. */
  lemma SpansOf(p: Props, columns: int, col: int, push: int)
    requires columns != 0
    requires Get(p, "columns") == Num(columns) && Get(p, "col") == Num(col) && Get(p, "push") == Num(push)
    ensures Span(p, "col", "width") == Decl("width", Percent(Finite((col as real) * 100.0 / (columns as real))))
    ensures Span(p, "push", "margin-left") == Decl("margin-left", Percent(Finite((push as real) * 100.0 / (columns as real))))
  {
    IntegerPercentage(col, columns);
    IntegerPercentage(push, columns);
  }

  /** The defaults `col = 1` and `push = 0` give a width of `100 / columns`
      percent and no left margin. */
  lemma DefaultSpans(user: Props, columns: int)
    requires columns != 0
    requires Get(user, "col") == Undefined && Get(user, "push") == Undefined
    requires Get(user, "columns") == Num(columns)
    ensures Span(Element(user), "col", "width") == Decl("width", Percent(Finite(100.0 / (columns as real))))
    ensures Span(Element(user), "push", "margin-left") == Decl("margin-left", Percent(Finite(0.0)))
  {
    assert "columns" !in Defaults;
    IntegerPercentage(1, columns);
    IntegerPercentage(0, columns);
  }

  /** A `<prefix>-<bp>` override section: no block for an empty table (the
      reduce throws), otherwise one media block per breakpoint whose prop is
      truthy, with that breakpoint's threshold, the last table entry first. */
  lemma OverrideBlocks(p: Props, t: Table, prefix: string, property: string)
    requires Get(p, "breakPoints") == Obj(t)
    ensures t == [] ==> Section(p, OverrideFragment(p, prefix, property)) == Err(ReduceOfEmptyArray)
    ensures t != [] ==> Section(p, OverrideFragment(p, prefix, property)).Ok?
    ensures t != [] ==>
      var r, sel := Section(p, OverrideFragment(p, prefix, property)).value, Reverse(Selected(t, p, prefix));
      && |r| == |sel|
      && forall k :: 0 <= k < |sel| ==> r[k] == Media(sel[k].1, [Written(p, Key(prefix, sel[k].0), property)])
  {
    var f := OverrideFragment(p, prefix, property);
    if t != [] {
      assert MediaSection(t, f).Ok?;
      SectionOfSelected(p, t, prefix, f);
      var sel := Reverse(Selected(t, p, prefix));
      forall e | e in sel ensures f(e) == Ok([Media(e.1, [Written(p, Key(prefix, e.0), property)])]) {
        assert e in Selected(t, p, prefix);
      }
      CollectSingles(sel, f);
    }
  }

  /** `hidden-<bp>` puts only `display: none` inside the media block of each
      breakpoint whose prop is truthy, and nothing outside a media block. */
  lemma HiddenBlocks(p: Props, t: Table)
    requires Get(p, "breakPoints") == Obj(t)
    ensures t == [] ==> Section(p, HiddenFragment(p)) == Err(ReduceOfEmptyArray)
    ensures t != [] ==> Section(p, HiddenFragment(p)).Ok?
    ensures t != [] ==>
      var r, sel := Section(p, HiddenFragment(p)).value, Reverse(Selected(t, p, "hidden"));
      && PlainWithin(r, {})
      && |r| == |sel|
      && forall k :: 0 <= k < |sel| ==> r[k] == Media(sel[k].1, [Decl("display", Text("none"))])
  {
    var f := HiddenFragment(p);
    if t != [] {
      assert MediaSection(t, f).Ok?;
      SectionOfSelected(p, t, "hidden", f);
      var sel := Reverse(Selected(t, p, "hidden"));
      forall e | e in sel ensures f(e) == Ok([Media(e.1, [Decl("display", Text("none"))])]) {
        assert e in Selected(t, p, "hidden");
      }
      CollectSingles(sel, f);
      HiddenPlain(p);
    }
  }

  /** `show-<bp>` writes, for each breakpoint whose prop is truthy, an
      unconditional `display: none` immediately followed by a media block
      with `display: block`, the last table entry first. */
  lemma ShowBlocks(p: Props, t: Table)
    requires Get(p, "breakPoints") == Obj(t)
    ensures t == [] ==> Section(p, ShowFragment(p)) == Err(ReduceOfEmptyArray)
    ensures t != [] ==> Section(p, ShowFragment(p)).Ok?
    ensures t != [] ==>
      var r, sel := Section(p, ShowFragment(p)).value, Reverse(Selected(t, p, "show"));
      && |r| == 2 * |sel|
      && forall k :: 0 <= k < |sel| ==>
           && r[2 * k] == Plain(Decl("display", Text("none")))
           && r[2 * k + 1] == Media(sel[k].1, [Decl("display", Text("block"))])
  {
    var f := ShowFragment(p);
    if t != [] {
      assert MediaSection(t, f).Ok?;
      SectionOfSelected(p, t, "show", f);
      var sel := Reverse(Selected(t, p, "show"));
      forall e | e in sel
        ensures f(e) == Ok([Plain(Decl("display", Text("none"))), Media(e.1, [Decl("display", Text("block"))])])
      {
        assert e in Selected(t, p, "show");
      }
      CollectPairs(sel, f);
    }
  }

  /** With an empty breakpoint table every breakpoint section's reduce
      throws, so no box can be styled. */
  lemma EmptyTableThrows(p: Props)
    requires Get(p, "breakPoints") == Obj([])
    ensures Style(p) == Err(ReduceOfEmptyArray)
  {
    var parts := Sections(p);
    assert parts[5] == Err(ReduceOfEmptyArray);
    assert forall i :: 0 <= i < |parts| && parts[i].Err? ==> parts[i].error == ReduceOfEmptyArray;
  }

  /** Without a breakpoint table `Object.keys` throws. */
  lemma MissingTableThrows(p: Props)
    requires Get(p, "breakPoints") == Undefined || Get(p, "breakPoints") == Null
    ensures Style(p) == Err(NotAnObject)
  {
    var parts := Sections(p);
    assert parts[5] == Err(NotAnObject);
    assert forall i :: 0 <= i < |parts| && parts[i].Err? ==> parts[i].error == NotAnObject;
  }

  lemma OverridePlain(p: Props, prefix: string, property: string)
    requires Section(p, OverrideFragment(p, prefix, property)).Ok?
    ensures PlainWithin(Section(p, OverrideFragment(p, prefix, property)).value, {})
  {
    MediaSectionPlainWithin(TableOf(Get(p, "breakPoints")).value, OverrideFragment(p, prefix, property), {});
  }

  lemma HiddenPlain(p: Props)
    requires Section(p, HiddenFragment(p)).Ok?
    ensures PlainWithin(Section(p, HiddenFragment(p)).value, {})
  {
    MediaSectionPlainWithin(TableOf(Get(p, "breakPoints")).value, HiddenFragment(p), {});
  }

  lemma ShowPlain(p: Props)
    requires Section(p, ShowFragment(p)).Ok?
    ensures PlainWithin(Section(p, ShowFragment(p)).value, {"display"})
  {
    var t, f := TableOf(Get(p, "breakPoints")).value, ShowFragment(p);
    forall e | e in t ensures PlainWithin(Fragment(f(e)), {"display"}) {
      ShowFragmentPlain(p, e);
    }
    MediaSectionPlainWithin(t, f, {"display"});
  }

  lemma ShowFragmentPlain(p: Props, e: Entry)
    ensures PlainWithin(Fragment(ShowFragment(p)(e)), {"display"})
  {
    if Truthy(Get(p, Key("show", e.0))) {
      var frag := [Plain(Decl("display", Text("none"))), Media(e.1, [Decl("display", Text("block"))])];
      assert Fragment(ShowFragment(p)(e)) == frag;
      assert frag[0].decl.property == "display" && !frag[1].Plain?;
    }
  }

  /** The properties each interpolation of the template may declare outside a media block. */
  const Allowed: seq<set<string>> :=
    [{"box-sizing"}, {"border"}, {"order", "flex", "align-self"}, {"width", "margin-left"},
     {"grid-area", "grid-column", "grid-row"}, {}, {}, {}, {}, {"display"}]

  lemma SectionsPlainWithin(p: Props)
    requires Style(p).Ok?
    ensures forall i :: 0 <= i < |Sections(p)| ==> Sections(p)[i].Ok? && PlainWithin(Sections(p)[i].value, Allowed[i])
  {
    var parts := Sections(p);
    assert forall i :: 0 <= i < |parts| ==> parts[i].Ok?;
    forall i | 0 <= i < |parts| ensures PlainWithin(parts[i].value, Allowed[i]) {
      if i == 0 {
        assert PlainWithin(BoxSizing, {"box-sizing"});
      } else if i == 5 {
        assert parts[5] == Section(p, OverrideFragment(p, "area", "grid-area"));
        OverridePlain(p, "area", "grid-area");
      } else if i == 6 {
        assert parts[6] == Section(p, OverrideFragment(p, "column", "grid-column"));
        OverridePlain(p, "column", "grid-column");
      } else if i == 7 {
        assert parts[7] == Section(p, OverrideFragment(p, "row", "grid-row"));
        OverridePlain(p, "row", "grid-row");
      } else if i == 8 {
        assert parts[8] == Section(p, HiddenFragment(p));
        HiddenPlain(p);
      } else if i == 9 {
        assert parts[9] == Section(p, ShowFragment(p));
        ShowPlain(p);
      }
    }
  }

  /** A property only interpolation `j` may declare is declared by the box
      exactly when that interpolation declares it. */
  lemma SectionDeclares(p: Props, j: nat, property: string)
    requires Style(p).Ok? && j < 10
    requires forall i :: 0 <= i < 10 && i != j ==> property !in Allowed[i]
    ensures Declares(Style(p).value, property) <==> Declares(Sections(p)[j].value, property)
  {
    SectionsPlainWithin(p);
    OnlyPartDeclares(Sections(p), Allowed, j, property);
  }

  /** In a flex display the box declares `order` and `align-self`, and `flex`
      unless the column grid is in use; in any other display none of them.
      No other part of the template declares them. */
  lemma FlexModeDeclarations(p: Props)
    requires Style(p).Ok?
    ensures var r, d := Style(p).value, Get(p, "display");
      && (Declares(r, "order") <==> IsFlexDisplay(d))
      && (Declares(r, "align-self") <==> IsFlexDisplay(d))
      && (Declares(r, "flex") <==> IsFlexDisplay(d) && !Truthy(Get(p, "useGrid")))
  {
    FlexItemDeclares(p, "order");
    FlexItemDeclares(p, "align-self");
    FlexItemDeclares(p, "flex");
  }

  lemma FlexItemDeclares(p: Props, property: string)
    requires Style(p).Ok? && property in {"order", "align-self", "flex"}
    ensures Declares(Style(p).value, property) <==> Declares(FlexItem(p), property)
  {
    assert Sections(p)[2] == Ok(FlexItem(p));
    SectionDeclares(p, 2, property);
  }

  /** In a grid display the box declares `grid-area`, `grid-column` and
      `grid-row` each exactly when its prop is truthy; in any other display
      none of them outside a media block. */
  lemma GridModeDeclarations(p: Props)
    requires Style(p).Ok?
    ensures var r, d := Style(p).value, Get(p, "display");
      && (Declares(r, "grid-area") <==> IsGridDisplay(d) && Truthy(Get(p, "area")))
      && (Declares(r, "grid-column") <==> IsGridDisplay(d) && Truthy(Get(p, "column")))
      && (Declares(r, "grid-row") <==> IsGridDisplay(d) && Truthy(Get(p, "row")))
  {
    PlacementDeclares(p, "grid-area");
    PlacementDeclares(p, "grid-column");
    PlacementDeclares(p, "grid-row");
  }

  lemma PlacementDeclares(p: Props, property: string)
    requires Style(p).Ok? && property in {"grid-area", "grid-column", "grid-row"}
    ensures Declares(Style(p).value, property) <==> Declares(Placement(p), property)
  {
    assert Sections(p)[4] == Ok(Placement(p));
    SectionDeclares(p, 4, property);
  }

  /** The box declares a base `width` and `margin-left` exactly when its
      parent's column grid is in use. */
  lemma ColumnGridDeclarations(p: Props)
    requires Style(p).Ok?
    ensures var r := Style(p).value;
      && (Declares(r, "width") <==> Truthy(Get(p, "useGrid")))
      && (Declares(r, "margin-left") <==> Truthy(Get(p, "useGrid")))
  {
    SectionDeclares(p, 3, "width");
    SectionDeclares(p, 3, "margin-left");
  }

  /** The inverse defaults of the two visibility props for the table
      `{phone: 576}`: `show-phone` hides the box and shows it under 576px,
      `hidden-phone` hides it only under 576px. */
  lemma VisibilityExample()
    ensures var p := map["breakPoints" := Obj([("phone", 576)]), "show-phone" := Bool(true)];
      Section(p, ShowFragment(p)) ==
        Ok([Plain(Decl("display", Text("none"))), Media(576, [Decl("display", Text("block"))])])
    ensures var p := map["breakPoints" := Obj([("phone", 576)]), "hidden-phone" := Bool(true)];
      Section(p, HiddenFragment(p)) == Ok([Media(576, [Decl("display", Text("none"))])])
  {
    ShowExample();
    HiddenExample();
  }

  lemma ShowExample()
    ensures var p := map["breakPoints" := Obj([("phone", 576)]), "show-phone" := Bool(true)];
      Section(p, ShowFragment(p)) ==
        Ok([Plain(Decl("display", Text("none"))), Media(576, [Decl("display", Text("block"))])])
  {
    var t := [("phone", 576)];
    var p := map["breakPoints" := Obj(t), "show-phone" := Bool(true)];
    assert Key("show", "phone") == "show-phone";
    assert Selected(t, p, "show") == t;
    ShowBlocks(p, t);
  }

  lemma HiddenExample()
    ensures var p := map["breakPoints" := Obj([("phone", 576)]), "hidden-phone" := Bool(true)];
      Section(p, HiddenFragment(p)) == Ok([Media(576, [Decl("display", Text("none"))])])
  {
    var t := [("phone", 576)];
    var q := map["breakPoints" := Obj(t), "hidden-phone" := Bool(true)];
    assert Key("hidden", "phone") == "hidden-phone";
    assert Selected(t, q, "hidden") == t;
    HiddenBlocks(q, t);
  }
}
