/** The grid container: CSS grid templates written from string or array
    props, per-breakpoint overrides, and the props it hands to its children
    (src/components/grid.js). */
module Grid {
  import opened Wrappers
  import opened JsValues
  import opened Strings
  import opened Css
  import opened Breakpoints

  /** `gridDefault`, also the component's `defaultProps`. */
  const Default: Props :=
    map["debug" := Bool(false), "breakPoints" := Obj(DefaultTable), "display" := Str("grid"),
        "columns" := Null, "auto-columns" := Null, "rows" := Null, "auto-rows" := Null,
        "areas" := Null, "gap" := Null,
        "justify" := Str("stretch"), "align" := Str("stretch"), "flow" := Str("row")]

  /** The props of a `<Grid>` element created with the props `user`. */
  function Element(user: Props): (p: Props)
    ensures forall k :: k in Default && Get(user, k) == Undefined ==> Get(p, k) == Default[k]
    ensures forall k :: Get(user, k) != Undefined ==> Get(p, k) == Get(user, k)
    ensures forall k :: k !in Default ==> Get(p, k) == Get(user, k)
  {
    WithDefaults(user, Default)
  }

  /** The string forms of array items, as `+` and template literals write them. */
  function Texts(items: seq<Value>): (r: seq<string>)
    ensures |r| == |items|
  {
    seq(|items|, i requires 0 <= i < |items| => ToText(items[i]))
  }

  /** `items.reduce((prev, current) => prev + ' ' + current)`, folded from the left. */
  function JoinTracks(items: seq<string>): string
    requires |items| >= 1
    decreases |items|
  {
    if |items| == 1 then items[0]
    else JoinTracks(items[..|items| - 1]) + " " + items[|items| - 1]
  }

  lemma {:induction false} JoinTracksIsJoin(items: seq<string>)
    requires |items| >= 1
    ensures JoinTracks(items) == Join(items, " ")
    decreases |items|
  {
    if |items| > 1 {
      var pre := items[..|items| - 1];
      JoinTracksIsJoin(pre);
      JoinSnoc(pre, items[|items| - 1], " ");
      assert pre + [items[|items| - 1]] == items;
    }
  }

  /** The track list of a truthy `columns` or `rows` value: a string is
      written as it is and an array has its items joined by spaces; an empty
      array makes `reduce` throw and any other value has no `reduce`. */
  function TrackList(v: Value): (r: Result<string, JsError>)
    ensures v.Str? ==> r == Ok(v.s)
    ensures v.Arr? && |v.items| >= 1 ==> r == Ok(Join(Texts(v.items), " "))
    ensures v == Arr([]) ==> r == Err(ReduceOfEmptyArray)
    ensures !v.Str? && !v.Arr? ==> r == Err(NotAFunction)
  {
    match v
    case Str(s) => Ok(s)
    case Arr(xs) =>
      if xs == [] then Err(ReduceOfEmptyArray)
      else
        JoinTracksIsJoin(Texts(xs));
        Ok(JoinTracks(Texts(xs)))
    case _ => Err(NotAFunction)
  }

  /** The `areas` reduce: at index 1 both rows are quoted, after that each
      new row is quoted and appended; a single row is `reduce`'s own result,
      left as it is. */
  function AreaFold(rows: seq<string>): string
    requires |rows| >= 1
    decreases |rows|
  {
    if |rows| == 1 then rows[0]
    else if |rows| == 2 then Quote(rows[0]) + " " + Quote(rows[1])
    else AreaFold(rows[..|rows| - 1]) + " " + Quote(rows[|rows| - 1])
  }

  lemma {:induction false} AreaFoldQuotes(rows: seq<string>)
    requires |rows| >= 2
    ensures AreaFold(rows) == Join(QuoteAll(rows), " ")
    decreases |rows|
  {
    var q := QuoteAll(rows);
    if |rows| == 2 {
      assert q[1..] == [Quote(rows[1])];
    } else {
      var pre := rows[..|rows| - 1];
      AreaFoldQuotes(pre);
      JoinSnoc(QuoteAll(pre), Quote(rows[|rows| - 1]), " ");
      assert QuoteAll(pre) + [Quote(rows[|rows| - 1])] == q;
    }
  }

  /** The template of a truthy `areas` value: two or more rows are each
      quoted and joined by spaces, a single row is written unquoted; an empty
      array makes `reduce` throw and a non-array has no `reduce`. */
  function AreaTemplate(v: Value): (r: Result<string, JsError>)
    ensures v.Arr? && |v.items| >= 2 ==> r == Ok(Join(QuoteAll(Texts(v.items)), " "))
    ensures v.Arr? && |v.items| == 1 ==> r == Ok(ToText(v.items[0]))
    ensures v == Arr([]) ==> r == Err(ReduceOfEmptyArray)
    ensures !v.Arr? ==> r == Err(NotAFunction)
  {
    match v
    case Arr(xs) =>
      if xs == [] then Err(ReduceOfEmptyArray)
      else if |xs| == 1 then Ok(AreaFold(Texts(xs)))
      else
        AreaFoldQuotes(Texts(xs));
        Ok(AreaFold(Texts(xs)))
    case _ => Err(NotAFunction)
  }

  /** The base template interpolation of `key`: nothing when the prop is
      falsy, otherwise `property: <value>`, or the throw of `value`. */
  function BaseTemplate(p: Props, key: string, property: string,
                        value: Value -> Result<string, JsError>): (r: Style)
    ensures r.Ok? ==> PlainWithin(r.value, {property})
    ensures r.Ok? ==> (Declares(r.value, property) <==> Truthy(Get(p, key)))
    ensures r.Err? <==> Truthy(Get(p, key)) && value(Get(p, key)).Err?
    ensures !Truthy(Get(p, key)) ==> r == Ok([])
    ensures r.Ok? && Truthy(Get(p, key)) ==>
      r.value == [Plain(Decl(property, Text(value(Get(p, key)).value)))]
  {
    var v := Get(p, key);
    if !Truthy(v) then Ok([])
    else match value(v)
      case Err(e) => Err(e)
      case Ok(s) =>
        DeclaresSingle(Decl(property, Text(s)), property);
        Ok([Plain(Decl(property, Text(s)))])
  }

  /** The fragment of one breakpoint in a `<prefix>-<bp>` override section. */
  function TemplateFragment(p: Props, prefix: string, property: string,
                            value: Value -> Result<string, JsError>): (f: Entry -> Style)
    ensures forall e: Entry :: !Truthy(Get(p, Key(prefix, e.0))) ==> f(e) == Ok([])
    ensures forall e: Entry :: Truthy(Get(p, Key(prefix, e.0))) ==>
      (f(e).Err? <==> value(Get(p, Key(prefix, e.0))).Err?)
    ensures forall e: Entry :: Truthy(Get(p, Key(prefix, e.0))) && f(e).Ok? ==>
      f(e).value == [Media(e.1, [Decl(property, Text(value(Get(p, Key(prefix, e.0))).value))])]
  {
    (e: Entry) =>
      var v := Get(p, Key(prefix, e.0));
      if !Truthy(v) then Ok([])
      else if value(v).Err? then Err(value(v).error)
      else Ok([Media(e.1, [Decl(property, Text(value(v).value))])])
  }

  /** `property: ${props[key]}` when the prop is truthy, nothing otherwise. */
  function Optional(p: Props, key: string, property: string): (r: seq<Rule>)
    ensures PlainWithin(r, {property})
    ensures Declares(r, property) <==> Truthy(Get(p, key))
    ensures Truthy(Get(p, key)) ==> r == [Plain(Decl(property, Text(ToText(Get(p, key)))))]
    ensures !Truthy(Get(p, key)) ==> r == []
  {
    DeclaresSingle(Written(p, key, property), property);
    if Truthy(Get(p, key)) then [Plain(Written(p, key, property))] else []
  }

  /** `grid-gap: ${props.gap}px` when `gap` is truthy: a gap of 0 writes nothing. */
  function Gap(p: Props): (r: seq<Rule>)
    ensures PlainWithin(r, {"grid-gap"})
    ensures Declares(r, "grid-gap") <==> Truthy(Get(p, "gap"))
    ensures r != [] ==> r == [Plain(Decl("grid-gap", Text(ToText(Get(p, "gap")) + "px")))]
  {
    var d := Decl("grid-gap", Text(ToText(Get(p, "gap")) + "px"));
    DeclaresSingle(d, "grid-gap");
    if Truthy(Get(p, "gap")) then [Plain(d)] else []
  }

  /** The interpolations of `GridContainer`, in template order. Only the
      three base templates and their three breakpoint sections can throw. */
  function Sections(p: Props): (r: seq<Style>)
    ensures |r| == 14
    ensures r[0] == Ok([Plain(Decl("display", Text(Interpolate(Get(p, "display")))))])
    ensures r[13] == Ok(Background(p))
    ensures r[3].Ok? && r[6].Ok? && r[9].Ok? && r[10].Ok? && r[11].Ok? && r[12].Ok?
  {
    [ Ok([Plain(Decl("display", Text(Interpolate(Get(p, "display")))))]),
      BaseTemplate(p, "columns", "grid-template-columns", TrackList),
      Section(p, TemplateFragment(p, "columns", "grid-template-columns", TrackList)),
      Ok(Optional(p, "auto-columns", "grid-auto-columns")),
      BaseTemplate(p, "rows", "grid-template-rows", TrackList),
      Section(p, TemplateFragment(p, "rows", "grid-template-rows", TrackList)),
      Ok(Optional(p, "auto-rows", "grid-auto-rows")),
      BaseTemplate(p, "areas", "grid-template-areas", AreaTemplate),
      Section(p, TemplateFragment(p, "areas", "grid-template-areas", AreaTemplate)),
      Ok(Gap(p)),
      Ok(Optional(p, "justify", "justify-items")),
      Ok(Optional(p, "align", "align-items")),
      Ok(Optional(p, "flow", "grid-auto-flow")),
      Ok(Background(p)) ]
  }

  /** The style of a grid container with props `p`. */
  function Style(p: Props): (r: Style)
    ensures r.Ok? <==> forall i :: 0 <= i < |Sections(p)| ==> Sections(p)[i].Ok?
    ensures r.Ok? ==> r.value == Values(Sections(p))
    ensures r.Ok? ==> |r.value| >= 1 && r.value[0] == Plain(Decl("display", Text(Interpolate(Get(p, "display")))))
  {
    var r := Chain(Sections(p));
    if r.Ok? then
      assert Sections(p)[0].Ok?;
      r
    else r
  }

  /** The props `Grid` injects into each child: its display, debug flag and
      breakpoint table. */
  function Context(p: Props): (r: Props)
    ensures r.Keys == {"display", "debug", "breakPoints"}
    ensures forall k :: k in r ==> r[k] == Get(p, k)
  {
    map["display" := Get(p, "display"), "debug" := Get(p, "debug"), "breakPoints" := Get(p, "breakPoints")]
  }

  // ---------------------------------------------------------------------
  // Properties

  /** An array track list splits back, at its spaces, into the string forms
      of its items when none of them holds a space. */
  lemma TrackListSplits(items: seq<Value>)
    requires |items| >= 1
    requires forall i :: 0 <= i < |items| ==> ' ' !in ToText(items[i])
    ensures TrackList(Arr(items)).Ok?
    ensures Split(TrackList(Arr(items)).value, ' ') == Texts(items)
  {
    assert " " == [' '];
    SplitJoin(Texts(items), ' ');
  }

  /** Areas of two or more rows parse back, as a list of quoted strings, into
      the rows when no row holds a double quote. */
  lemma AreasParse(items: seq<Value>)
    requires |items| >= 2
    requires forall i :: 0 <= i < |items| ==> '"' !in ToText(items[i])
    ensures AreaTemplate(Arr(items)).Ok?
    ensures ParseQuoted(AreaTemplate(Arr(items)).value) == Some(Texts(items))
  {
    ParseQuotedJoin(Texts(items));
  }

  /** `['a a', 'b c']` becomes `"a a" "b c"`, while the single row `['a a']`
      stays `a a`, which is not a list of quoted strings. */
  lemma AreasExamples()
    ensures AreaTemplate(Arr([Str("a a"), Str("b c")])) == Ok("\"a a\" \"b c\"")
    ensures AreaTemplate(Arr([Str("a a")])) == Ok("a a")
    ensures ParseQuoted("a a") == None
  {
    var rows := Texts([Str("a a"), Str("b c")]);
    assert rows == ["a a", "b c"];
    assert AreaTemplate(Arr([Str("a a"), Str("b c")])) == Ok(AreaFold(rows));
    assert AreaFold(rows) == Quote("a a") + " " + Quote("b c") == "\"a a\" \"b c\"";
    assert Texts([Str("a a")]) == ["a a"];
  }

  /** A `<prefix>-<bp>` override section over a non-empty table throws
      exactly when the value of a breakpoint whose prop is truthy throws. */
  lemma TemplateThrows(p: Props, t: Table, prefix: string, property: string,
                       value: Value -> Result<string, JsError>)
    requires Get(p, "breakPoints") == Obj(t) && t != []
    ensures Section(p, TemplateFragment(p, prefix, property, value)).Err? <==>
      exists e :: e in Selected(t, p, prefix) && value(Get(p, Key(prefix, e.0))).Err?
  {
    var f := TemplateFragment(p, prefix, property, value);
    var sel := Selected(t, p, prefix);
    if MediaSection(t, f).Err? {
      var i :| 0 <= i < |t| && f(t[i]).Err?;
      assert t[i] in sel;
    }
    if exists e :: e in sel && value(Get(p, Key(prefix, e.0))).Err? {
      var e :| e in sel && value(Get(p, Key(prefix, e.0))).Err?;
      var i :| 0 <= i < |t| && t[i] == e;
      assert f(t[i]).Err?;
    }
  }

  /** The fragment of a selected breakpoint whose value does not throw is
      its one media block. */
  lemma SelectedFragments(p: Props, t: Table, prefix: string, property: string,
                          value: Value -> Result<string, JsError>)
    requires MediaSection(t, TemplateFragment(p, prefix, property, value)).Ok?
    ensures forall e :: e in Selected(t, p, prefix) ==>
      TemplateFragment(p, prefix, property, value)(e) ==
        Ok([Media(e.1, [Decl(property, Text(value(Get(p, Key(prefix, e.0))).value))])])
  {
    var f := TemplateFragment(p, prefix, property, value);
    forall e | e in Selected(t, p, prefix)
      ensures f(e) == Ok([Media(e.1, [Decl(property, Text(value(Get(p, Key(prefix, e.0))).value))])])
    {
      var i :| 0 <= i < |t| && t[i] == e;
      assert f(t[i]).Ok?;
    }
  }

  /** An override section that does not throw holds one media block per
      breakpoint whose prop is truthy, with that breakpoint's threshold and
      the prop's template, the last table entry first. */
  lemma TemplateBlocks(p: Props, t: Table, prefix: string, property: string,
                       value: Value -> Result<string, JsError>)
    requires Get(p, "breakPoints") == Obj(t)
    requires Section(p, TemplateFragment(p, prefix, property, value)).Ok?
    ensures var r, sel := Section(p, TemplateFragment(p, prefix, property, value)).value,
                          Reverse(Selected(t, p, prefix));
      && |r| == |sel|
      && forall k :: 0 <= k < |sel| ==>
           r[k] == Media(sel[k].1, [Decl(property, Text(value(Get(p, Key(prefix, sel[k].0))).value))])
  {
    var f := TemplateFragment(p, prefix, property, value);
    assert MediaSection(t, f).Ok?;
    SelectedFragments(p, t, prefix, property, value);
    SectionOfSelected(p, t, prefix, f);
    var rs := Reverse(Selected(t, p, prefix));
    CollectSingles(rs, f);
    forall k | 0 <= k < |rs|
      ensures Collect(rs, f)[k] == Media(rs[k].1, [Decl(property, Text(value(Get(p, Key(prefix, rs[k].0))).value))])
    {
      assert rs[k] in rs;
    }
  }

  lemma TemplatePlain(p: Props, prefix: string, property: string, value: Value -> Result<string, JsError>)
    requires Section(p, TemplateFragment(p, prefix, property, value)).Ok?
    ensures PlainWithin(Section(p, TemplateFragment(p, prefix, property, value)).value, {})
  {
    MediaSectionPlainWithin(TableOf(Get(p, "breakPoints")).value, TemplateFragment(p, prefix, property, value), {});
  }

  /** An override section reads the `<prefix>-<bp>` props only for the
      names in the table: props that agree on those agree on the section. */
  lemma TemplateReadsOnlyTableKeys(p1: Props, p2: Props, t: Table, prefix: string, property: string,
                                   value: Value -> Result<string, JsError>)
    requires Get(p1, "breakPoints") == Obj(t) && Get(p2, "breakPoints") == Obj(t)
    requires forall i :: 0 <= i < |t| ==> Get(p1, Key(prefix, t[i].0)) == Get(p2, Key(prefix, t[i].0))
    ensures Section(p1, TemplateFragment(p1, prefix, property, value)) ==
            Section(p2, TemplateFragment(p2, prefix, property, value))
  {
    MediaSectionCongruent(t, TemplateFragment(p1, prefix, property, value),
                             TemplateFragment(p2, prefix, property, value));
  }

  /** With an empty breakpoint table or none at all, no grid can be styled. */
  lemma TableThrows(p: Props)
    requires Get(p, "breakPoints") in {Obj([]), Undefined, Null}
    ensures Style(p).Err?
  {
    assert !Sections(p)[2].Ok?;
  }

  /** The properties each interpolation of the template may declare outside a media block. */
  const Allowed: seq<set<string>> :=
    [{"display"}, {"grid-template-columns"}, {}, {"grid-auto-columns"},
     {"grid-template-rows"}, {}, {"grid-auto-rows"},
     {"grid-template-areas"}, {}, {"grid-gap"},
     {"justify-items"}, {"align-items"}, {"grid-auto-flow"}, {"background"}]

  lemma PartPlainWithin(p: Props, i: nat)
    requires i < |Sections(p)| && Sections(p)[i].Ok?
    ensures PlainWithin(Sections(p)[i].value, Allowed[i])
  {
    var parts := Sections(p);
    if i == 0 {
      assert PlainWithin(parts[0].value, {"display"});
    } else if i == 2 {
      assert parts[2] == Section(p, TemplateFragment(p, "columns", "grid-template-columns", TrackList));
      TemplatePlain(p, "columns", "grid-template-columns", TrackList);
    } else if i == 5 {
      assert parts[5] == Section(p, TemplateFragment(p, "rows", "grid-template-rows", TrackList));
      TemplatePlain(p, "rows", "grid-template-rows", TrackList);
    } else if i == 8 {
      assert parts[8] == Section(p, TemplateFragment(p, "areas", "grid-template-areas", AreaTemplate));
      TemplatePlain(p, "areas", "grid-template-areas", AreaTemplate);
    }
  }

  lemma SectionsPlainWithin(p: Props)
    requires Style(p).Ok?
    ensures forall i :: 0 <= i < |Sections(p)| ==> Sections(p)[i].Ok? && PlainWithin(Sections(p)[i].value, Allowed[i])
  {
    forall i | 0 <= i < |Sections(p)|
      ensures Sections(p)[i].Ok? && PlainWithin(Sections(p)[i].value, Allowed[i])
    {
      PartPlainWithin(p, i);
    }
  }

  lemma SectionDeclares(p: Props, j: nat, property: string)
    requires Style(p).Ok? && j < 14
    requires forall i :: 0 <= i < 14 && i != j ==> property !in Allowed[i]
    ensures Declares(Style(p).value, property) <==> Declares(Sections(p)[j].value, property)
  {
    SectionsPlainWithin(p);
    OnlyPartDeclares(Sections(p), Allowed, j, property);
  }

  /** Outside media blocks, a grid declares each template exactly when its
      prop is truthy. */
  lemma TemplateDeclarations(p: Props)
    requires Style(p).Ok?
    ensures var r := Style(p).value;
      && (Declares(r, "grid-template-columns") <==> Truthy(Get(p, "columns")))
      && (Declares(r, "grid-template-rows") <==> Truthy(Get(p, "rows")))
      && (Declares(r, "grid-template-areas") <==> Truthy(Get(p, "areas")))
  {
    SectionDeclares(p, 1, "grid-template-columns");
    SectionDeclares(p, 4, "grid-template-rows");
    SectionDeclares(p, 7, "grid-template-areas");
  }

  /** A grid declares each of the optional properties, and the debug
      background, exactly when its prop is truthy. */
  lemma OptionalDeclarations(p: Props)
    requires Style(p).Ok?
    ensures var r := Style(p).value;
      && (Declares(r, "grid-auto-columns") <==> Truthy(Get(p, "auto-columns")))
      && (Declares(r, "grid-auto-rows") <==> Truthy(Get(p, "auto-rows")))
      && (Declares(r, "grid-gap") <==> Truthy(Get(p, "gap")))
      && (Declares(r, "justify-items") <==> Truthy(Get(p, "justify")))
      && (Declares(r, "align-items") <==> Truthy(Get(p, "align")))
      && (Declares(r, "grid-auto-flow") <==> Truthy(Get(p, "flow")))
      && (Declares(r, "background") <==> Truthy(Get(p, "debug")))
  {
    AutoTracksDeclared(p);
    GapAndBackgroundDeclared(p);
    ItemAlignmentDeclared(p);
    OptionalSection(p, 12, "flow", "grid-auto-flow");
  }

  lemma AutoTracksDeclared(p: Props)
    requires Style(p).Ok?
    ensures var r := Style(p).value;
      && (Declares(r, "grid-auto-columns") <==> Truthy(Get(p, "auto-columns")))
      && (Declares(r, "grid-auto-rows") <==> Truthy(Get(p, "auto-rows")))
  {
    OptionalSection(p, 3, "auto-columns", "grid-auto-columns");
    OptionalSection(p, 6, "auto-rows", "grid-auto-rows");
  }

  lemma GapAndBackgroundDeclared(p: Props)
    requires Style(p).Ok?
    ensures var r := Style(p).value;
      && (Declares(r, "grid-gap") <==> Truthy(Get(p, "gap")))
      && (Declares(r, "background") <==> Truthy(Get(p, "debug")))
  {
    SectionDeclares(p, 9, "grid-gap");
    SectionDeclares(p, 13, "background");
  }

  lemma ItemAlignmentDeclared(p: Props)
    requires Style(p).Ok?
    ensures var r := Style(p).value;
      && (Declares(r, "justify-items") <==> Truthy(Get(p, "justify")))
      && (Declares(r, "align-items") <==> Truthy(Get(p, "align")))
  {
    OptionalSection(p, 10, "justify", "justify-items");
    OptionalSection(p, 11, "align", "align-items");
  }

  lemma OptionalSection(p: Props, j: nat, key: string, property: string)
    requires Style(p).Ok? && j < 14
    requires forall i :: 0 <= i < 14 && i != j ==> property !in Allowed[i]
    requires Sections(p)[j] == Ok(Optional(p, key, property))
    ensures Declares(Style(p).value, property) <==> Truthy(Get(p, key))
  {
    SectionDeclares(p, j, property);
  }

  /** A grid whose user leaves them unset is a `grid` display that stretches
      its items along both axes, flows by row and has no debug background. */
  lemma DefaultDeclarations(user: Props)
    requires Get(user, "display") == Undefined && Get(user, "debug") == Undefined
    requires Get(user, "justify") == Undefined && Get(user, "align") == Undefined
    requires Get(user, "flow") == Undefined
    requires Style(Element(user)).Ok?
    ensures var r := Style(Element(user)).value;
      && r[0] == Plain(Decl("display", Text("grid")))
      && Plain(Decl("justify-items", Text("stretch"))) in r
      && Plain(Decl("align-items", Text("stretch"))) in r
      && Plain(Decl("grid-auto-flow", Text("row"))) in r
      && !Declares(r, "background")
  {
    ElementDefaults(user);
    DefaultStyle(Element(user));
  }

  lemma ElementDefaults(user: Props)
    requires Get(user, "display") == Undefined && Get(user, "debug") == Undefined
    requires Get(user, "justify") == Undefined && Get(user, "align") == Undefined
    requires Get(user, "flow") == Undefined
    ensures var p := Element(user);
      && Get(p, "display") == Str("grid") && Get(p, "debug") == Bool(false)
      && Get(p, "justify") == Str("stretch") && Get(p, "align") == Str("stretch")
      && Get(p, "flow") == Str("row")
  {
    assert "display" in Default && "debug" in Default && "justify" in Default;
    assert "align" in Default && "flow" in Default;
  }

  lemma DefaultStyle(p: Props)
    requires Get(p, "display") == Str("grid") && Get(p, "debug") == Bool(false)
    requires Get(p, "justify") == Str("stretch") && Get(p, "align") == Str("stretch")
    requires Get(p, "flow") == Str("row")
    requires Style(p).Ok?
    ensures var r := Style(p).value;
      && r[0] == Plain(Decl("display", Text("grid")))
      && Plain(Decl("justify-items", Text("stretch"))) in r
      && Plain(Decl("align-items", Text("stretch"))) in r
      && Plain(Decl("grid-auto-flow", Text("row"))) in r
      && !Declares(r, "background")
  {
    var parts := Sections(p);
    assert parts[10].value == [Plain(Decl("justify-items", Text("stretch")))];
    assert parts[11].value == [Plain(Decl("align-items", Text("stretch")))];
    assert parts[12].value == [Plain(Decl("grid-auto-flow", Text("row")))];
    assert Plain(Decl("justify-items", Text("stretch"))) in parts[10].value;
    assert Plain(Decl("align-items", Text("stretch"))) in parts[11].value;
    assert Plain(Decl("grid-auto-flow", Text("row"))) in parts[12].value;
    OptionalDeclarations(p);
  }

  /** Every child receives the grid's display, debug flag and breakpoint
      table, replacing its own; every other prop of the child is kept. */
  lemma ChildrenInherit(p: Props, children: seq<Props>)
    ensures Context(p).Keys == {"display", "debug", "breakPoints"}
    ensures forall i :: 0 <= i < |children| ==>
      var c := CloneAll(children, Context(p))[i];
      && Get(c, "display") == Get(p, "display")
      && Get(c, "debug") == Get(p, "debug")
      && Get(c, "breakPoints") == Get(p, "breakPoints")
    ensures forall i, k :: 0 <= i < |children| && k !in Context(p) ==>
      Get(CloneAll(children, Context(p))[i], k) == Get(children[i], k)
    ensures forall i :: 0 <= i < |children| ==>
      var c := CloneAll(children, Context(p))[i];
      Get(c, "useGrid") == Get(children[i], "useGrid") && Get(c, "columns") == Get(children[i], "columns")
  {
    assert "display" in Context(p) && "debug" in Context(p) && "breakPoints" in Context(p);
    assert "useGrid" !in Context(p) && "columns" !in Context(p);
  }

  /** Every injected prop of a grid has a default, so a child never receives
      `undefined` for one of them. */
  lemma InjectedDefined(user: Props)
    ensures forall k :: k in Context(Element(user)) ==> Context(Element(user))[k] != Undefined
  {
    assert Default["display"] != Undefined && Default["debug"] != Undefined;
    assert Default["breakPoints"] != Undefined;
  }
}
