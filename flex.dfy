/** The flex container: a fixed list of flexbox declarations, and the props
    it hands to its children, including the column grid the boxes lay
    themselves out on (src/components/flex.js). */
module Flex {
  import opened Wrappers
  import opened JsValues
  import opened Css
  import opened Breakpoints
  import Box

  /** `flexDefault`, also the component's `defaultProps`; its `columns: 12`
      is written twice in the source, with the same value. */
  const Default: Props :=
    map["debug" := Bool(false), "useGrid" := Bool(false), "columns" := Num(12),
        "breakPoints" := Obj(DefaultTable), "display" := Str("flex"), "flow" := Str("row"),
        "wrap" := Str("nowrap"), "justify" := Str("flex-start"), "align" := Str("flex-start"),
        "content" := Str("flex-start")]

  /** The props of a `<Flex>` element created with the props `user`. */
  function Element(user: Props): (p: Props)
    ensures forall k :: k in Default && Get(user, k) == Undefined ==> Get(p, k) == Default[k]
    ensures forall k :: Get(user, k) != Undefined ==> Get(p, k) == Get(user, k)
    ensures forall k :: k !in Default ==> Get(p, k) == Get(user, k)
  {
    WithDefaults(user, Default)
  }

  /** Each declared property of the container and the prop it is written from. */
  const Declared: seq<(string, string)> :=
    [("display", "display"), ("flex-direction", "flow"), ("flex-wrap", "wrap"),
     ("justify-content", "justify"), ("align-items", "align"), ("align-content", "content")]

  /** The style of a flex container with props `p`: six declarations written
      straight from their props, `position: relative`, then the debug
      background. Nothing in it can throw and nothing is conditional on a
      breakpoint. */
  function Style(p: Props): (r: seq<Rule>)
    ensures |r| == 7 + |Background(p)| && r[7..] == Background(p)
    ensures forall i :: 0 <= i < |r| ==> r[i].Plain?
    ensures forall i :: 0 <= i < |Declared| ==>
      r[i].decl == Decl(Declared[i].0, Text(Interpolate(Get(p, Declared[i].1))))
    ensures r[6].decl == Decl("position", Text("relative"))
    ensures Declares(r, "background") <==> Truthy(Get(p, "debug"))
  {
    var fixed := [
      Plain(Decl("display", Text(Interpolate(Get(p, "display"))))),
      Plain(Decl("flex-direction", Text(Interpolate(Get(p, "flow"))))),
      Plain(Decl("flex-wrap", Text(Interpolate(Get(p, "wrap"))))),
      Plain(Decl("justify-content", Text(Interpolate(Get(p, "justify"))))),
      Plain(Decl("align-items", Text(Interpolate(Get(p, "align"))))),
      Plain(Decl("align-content", Text(Interpolate(Get(p, "content"))))),
      Plain(Decl("position", Text("relative")))];
    assert PlainWithin(fixed, {"display", "flex-direction", "flex-wrap", "justify-content",
                               "align-items", "align-content", "position"});
    DeclaresConcat(fixed, Background(p), "background");
    DeclaresWithin(fixed, {"display", "flex-direction", "flex-wrap", "justify-content",
                           "align-items", "align-content", "position"}, "background");
    fixed + Background(p)
  }

  /** The props `Flex` injects into each child: its display, debug flag,
      column-grid switch, column count and breakpoint table. */
  function Context(p: Props): (r: Props)
    ensures r.Keys == {"display", "debug", "useGrid", "columns", "breakPoints"}
    ensures forall k :: k in r ==> r[k] == Get(p, k)
  {
    map["display" := Get(p, "display"), "debug" := Get(p, "debug"), "useGrid" := Get(p, "useGrid"),
        "columns" := Get(p, "columns"), "breakPoints" := Get(p, "breakPoints")]
  }

  // ---------------------------------------------------------------------
  // Properties

  lemma ElementDefaults(user: Props)
    requires forall i :: 0 <= i < |Declared| ==> Get(user, Declared[i].1) == Undefined
    requires Get(user, "debug") == Undefined
    ensures var p := Element(user);
      && Get(p, "display") == Str("flex") && Get(p, "flow") == Str("row")
      && Get(p, "wrap") == Str("nowrap") && Get(p, "justify") == Str("flex-start")
      && Get(p, "align") == Str("flex-start") && Get(p, "content") == Str("flex-start")
      && Get(p, "debug") == Bool(false)
  {
    assert Get(user, Declared[0].1) == Undefined && Get(user, Declared[1].1) == Undefined;
    assert Get(user, Declared[2].1) == Undefined && Get(user, Declared[3].1) == Undefined;
    assert Get(user, Declared[4].1) == Undefined && Get(user, Declared[5].1) == Undefined;
    assert "display" in Default && "flow" in Default && "wrap" in Default && "debug" in Default;
    assert "justify" in Default && "align" in Default && "content" in Default;
  }

  /** A container whose user sets none of its flexbox props is a
      non-wrapping row packed at the start on both axes, without the debug
      background. */
  lemma DefaultStyle(user: Props)
    requires forall i :: 0 <= i < |Declared| ==> Get(user, Declared[i].1) == Undefined
    requires Get(user, "debug") == Undefined
    ensures Style(Element(user)) ==
      [ Plain(Decl("display", Text("flex"))),
        Plain(Decl("flex-direction", Text("row"))),
        Plain(Decl("flex-wrap", Text("nowrap"))),
        Plain(Decl("justify-content", Text("flex-start"))),
        Plain(Decl("align-items", Text("flex-start"))),
        Plain(Decl("align-content", Text("flex-start"))),
        Plain(Decl("position", Text("relative"))) ]
  {
    ElementDefaults(user);
  }

  /** Every child receives the container's five injected props, replacing
      its own; every other prop of the child is kept. */
  lemma ChildrenInherit(p: Props, children: seq<Props>)
    ensures Context(p).Keys == {"display", "debug", "useGrid", "columns", "breakPoints"}
    ensures forall i :: 0 <= i < |children| ==>
      var c := CloneAll(children, Context(p))[i];
      && Get(c, "display") == Get(p, "display")
      && Get(c, "debug") == Get(p, "debug")
      && Get(c, "useGrid") == Get(p, "useGrid")
      && Get(c, "columns") == Get(p, "columns")
      && Get(c, "breakPoints") == Get(p, "breakPoints")
    ensures forall i, k :: 0 <= i < |children| && k !in Context(p) ==>
      Get(CloneAll(children, Context(p))[i], k) == Get(children[i], k)
  {
    assert "display" in Context(p) && "debug" in Context(p) && "useGrid" in Context(p);
    assert "columns" in Context(p) && "breakPoints" in Context(p);
  }

  /** Every injected prop of a container has a default, so a child never
      receives `undefined` for one of them. */
  lemma InjectedDefined(user: Props)
    ensures forall k :: k in Context(Element(user)) ==> Context(Element(user))[k] != Undefined
  {
    assert Default["display"] != Undefined && Default["debug"] != Undefined;
    assert Default["useGrid"] != Undefined && Default["columns"] != Undefined;
    assert Default["breakPoints"] != Undefined;
  }

  /** The column-grid props of a box cloned by a container: its own `col`
      and `push`, the container's column count, switch and table. */
  lemma ClonedBox(p: Props, child: Props)
    ensures var b := CloneAll([child], Context(p))[0];
      && Get(b, "col") == Get(child, "col") && Get(b, "push") == Get(child, "push")
      && Get(b, "columns") == Get(p, "columns") && Get(b, "useGrid") == Get(p, "useGrid")
      && Get(b, "breakPoints") == Get(p, "breakPoints")
  {
    ChildrenInherit(p, [child]);
    assert "col" !in Context(p) && "push" !in Context(p);
  }

  /** An element that leaves the table unset gets the default table, and
      one that leaves `columns` unset gets a twelve-column grid. */
  lemma ColumnGridDefaults(user: Props)
    requires Get(user, "breakPoints") == Undefined
    ensures Get(Element(user), "breakPoints") == Obj(DefaultTable)
    ensures Get(user, "columns") == Undefined ==> Get(Element(user), "columns") == Num(12)
  {
    assert "breakPoints" in Default && "columns" in Default;
  }

  /** A box inside a container with the column grid switched on and
      `columns: n` spans `col * 100 / n` percent of the row, and, with the
      default table, gets one media block per breakpoint. */
  lemma ChildColumnWidth(user: Props, child: Props, n: int, col: int)
    requires Get(user, "useGrid") == Bool(true)
    requires Get(user, "columns") == Num(n) && n != 0
    requires Get(user, "breakPoints") == Undefined
    requires Get(child, "col") == Num(col)
    ensures var b := CloneAll([Box.Element(child)], Context(Element(user)))[0];
      && Box.ColumnGrid(b).Ok?
      && |Box.ColumnGrid(b).value| == 2 + |DefaultTable|
      && Box.ColumnGrid(b).value[0] == Plain(Decl("width", Percent(Finite((col as real) * 100.0 / (n as real)))))
  {
    var p := Element(user);
    ColumnGridDefaults(user);
    ClonedBox(p, Box.Element(child));
    var b := CloneAll([Box.Element(child)], Context(p))[0];
    Box.ColumnGridBlocks(b, DefaultTable);
    IntegerPercentage(col, n);
  }

  /** With the container's default of 12 columns and the box's defaults,
      every box spans a twelfth of the row and has no left margin. */
  lemma DefaultColumnWidth(user: Props, child: Props)
    requires Get(user, "useGrid") == Bool(true)
    requires Get(user, "columns") == Undefined && Get(user, "breakPoints") == Undefined
    requires Get(child, "col") == Undefined && Get(child, "push") == Undefined
    ensures var b := CloneAll([Box.Element(child)], Context(Element(user)))[0];
      && Box.ColumnGrid(b).Ok?
      && Box.ColumnGrid(b).value[0] == Plain(Decl("width", Percent(Finite(100.0 / 12.0))))
      && Box.ColumnGrid(b).value[1] == Plain(Decl("margin-left", Percent(Finite(0.0))))
  {
    var p := Element(user);
    ColumnGridDefaults(user);
    var e := Box.Element(child);
    ClonedBox(p, e);
    TwelfthColumn(CloneAll([e], Context(p))[0]);
  }

  lemma TwelfthColumn(b: Props)
    requires Get(b, "useGrid") == Bool(true) && Get(b, "breakPoints") == Obj(DefaultTable)
    requires Get(b, "columns") == Num(12) && Get(b, "col") == Num(1) && Get(b, "push") == Num(0)
    ensures Box.ColumnGrid(b).Ok?
    ensures Box.ColumnGrid(b).value[0] == Plain(Decl("width", Percent(Finite(100.0 / 12.0))))
    ensures Box.ColumnGrid(b).value[1] == Plain(Decl("margin-left", Percent(Finite(0.0))))
  {
    TwelfthSpans(b);
    Box.ColumnGridBlocks(b, DefaultTable);
  }

  lemma TwelfthSpans(b: Props)
    requires Get(b, "columns") == Num(12) && Get(b, "col") == Num(1) && Get(b, "push") == Num(0)
    ensures Box.Span(b, "col", "width") == Decl("width", Percent(Finite(100.0 / 12.0)))
    ensures Box.Span(b, "push", "margin-left") == Decl("margin-left", Percent(Finite(0.0)))
  {
    OneTwelfth();
  }

  lemma OneTwelfth()
    ensures Percentage(Num(1), Num(12)) == Finite(100.0 / 12.0)
    ensures Percentage(Num(0), Num(12)) == Finite(0.0)
  {
    assert ToNumber(Num(1)) == Finite(1.0) && ToNumber(Num(12)) == Finite(12.0);
    assert (1.0 / 12.0) * 100.0 == 100.0 / 12.0;
  }
}
