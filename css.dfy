/** The structured CSS the components produce: declarations and
    `@media (max-width: Npx)` blocks, in source order. */
module Css {
  import opened Wrappers
  import opened JsValues

  datatype CssValue =
    | Text(s: string)          // the literal text of the value
    | Percent(n: JsNumber)     // `${n}%`

  datatype Decl = Decl(property: string, value: CssValue)

  datatype Rule =
    | Plain(decl: Decl)
    | Media(maxWidth: nat, body: seq<Decl>)

  /** The outcome of evaluating a component's style template. */
  type Style = Result<seq<Rule>, JsError>

  /** The outputs of interpolations none of which throws, concatenated in
      template order. */
  function Values(parts: seq<Style>): seq<Rule>
    requires forall i :: 0 <= i < |parts| ==> parts[i].Ok?
  {
    if parts == [] then [] else parts[0].value + Values(parts[1..])
  }

  /** The interpolations of one template, evaluated in order: the first one
      that throws makes the whole template throw; otherwise their outputs are
      concatenated. */
  function Chain(parts: seq<Style>): (r: Style)
    ensures r.Ok? <==> forall i :: 0 <= i < |parts| ==> parts[i].Ok?
    ensures r.Ok? ==> r.value == Values(parts)
    ensures r.Ok? ==> forall i, rule :: 0 <= i < |parts| && rule in parts[i].value ==> rule in r.value
    ensures r.Err? ==> exists i :: 0 <= i < |parts| && parts[i] == Err(r.error)
                                   && forall j :: 0 <= j < i ==> parts[j].Ok?
  {
    if parts == [] then Ok([])
    else match parts[0]
      case Err(e) => Err(e)
      case Ok(x) =>
        match Chain(parts[1..])
        case Err(e) => Err(e)
        case Ok(y) => Ok(x + y)
  }

  /** `property: ${props[key]}` in a template literal. */
  function Written(p: Props, key: string, property: string): Decl
  {
    Decl(property, Text(ToText(Get(p, key))))
  }

  /** The debug background of the flex and grid containers. */
  const DebugBackground: Decl := Decl("background", Text("rgba(0,0,0,0.20)"))

  /** Some unconditional declaration of `property` is among the rules. */
  predicate Declares(rules: seq<Rule>, property: string)
  {
    exists i :: 0 <= i < |rules| && rules[i].Plain? && rules[i].decl.property == property
  }

  /** Every unconditional declaration among the rules sets one of `allowed`. */
  predicate PlainWithin(rules: seq<Rule>, allowed: set<string>)
  {
    forall i :: 0 <= i < |rules| && rules[i].Plain? ==> rules[i].decl.property in allowed
  }

  lemma DeclaresWithin(rules: seq<Rule>, allowed: set<string>, property: string)
    requires PlainWithin(rules, allowed)
    requires property !in allowed
    ensures !Declares(rules, property)
  {
  }

  lemma DeclaresSingle(d: Decl, property: string)
    ensures Declares([Plain(d)], property) <==> d.property == property
  {
    if d.property == property {
      assert [Plain(d)][0] == Plain(d);
    }
  }

  lemma DeclaresConcat(a: seq<Rule>, b: seq<Rule>, property: string)
    ensures Declares(a + b, property) <==> Declares(a, property) || Declares(b, property)
  {
    if Declares(a + b, property) {
      var i :| 0 <= i < |a + b| && (a + b)[i].Plain? && (a + b)[i].decl.property == property;
      if i >= |a| {
        assert b[i - |a|] == (a + b)[i];
      }
    }
    if Declares(b, property) {
      var i :| 0 <= i < |b| && b[i].Plain? && b[i].decl.property == property;
      assert (a + b)[|a| + i] == b[i];
    }
    if Declares(a, property) {
      var i :| 0 <= i < |a| && a[i].Plain? && a[i].decl.property == property;
      assert (a + b)[i] == a[i];
    }
  }

  lemma PlainWithinConcat(a: seq<Rule>, b: seq<Rule>, allowed: set<string>)
    requires PlainWithin(a, allowed) && PlainWithin(b, allowed)
    ensures PlainWithin(a + b, allowed)
  {
    forall i | 0 <= i < |a + b| && (a + b)[i].Plain?
      ensures (a + b)[i].decl.property in allowed
    {
      if i >= |a| { assert (a + b)[i] == b[i - |a|]; }
    }
  }

  /** A template declares a property exactly when one of its interpolations does. */
  lemma {:induction false} ChainDeclares(parts: seq<Style>, property: string)
    requires Chain(parts).Ok?
    ensures Declares(Chain(parts).value, property) <==>
      exists i :: 0 <= i < |parts| && Declares(parts[i].value, property)
  {
    if parts != [] {
      ChainDeclares(parts[1..], property);
      DeclaresConcat(parts[0].value, Chain(parts[1..]).value, property);
      if exists i :: 0 <= i < |parts| && Declares(parts[i].value, property) {
        var i :| 0 <= i < |parts| && Declares(parts[i].value, property);
        if i > 0 {
          assert parts[1..][i - 1] == parts[i];
        }
      }
      if exists i :: 0 <= i < |parts[1..]| && Declares(parts[1..][i].value, property) {
        var i :| 0 <= i < |parts[1..]| && Declares(parts[1..][i].value, property);
        assert parts[i + 1] == parts[1..][i];
      }
    }
  }

  /** The debug-mode interpolation of the flex and grid containers: a
      translucent background when `debug` is truthy. */
  function Background(p: Props): (r: seq<Rule>)
    ensures PlainWithin(r, {"background"})
    ensures Declares(r, "background") <==> Truthy(Get(p, "debug"))
    ensures Truthy(Get(p, "debug")) ==> r == [Plain(Decl("background", Text("rgba(0,0,0,0.20)")))]
    ensures !Truthy(Get(p, "debug")) ==> r == []
  {
    DeclaresSingle(DebugBackground, "background");
    if Truthy(Get(p, "debug")) then [Plain(DebugBackground)] else []
  }

  /** In a template whose parts declare unconditionally only properties of
      their `allowed` sets, a property that only part `j` may declare is
      declared exactly when part `j` declares it. */
  lemma OnlyPartDeclares(parts: seq<Style>, allowed: seq<set<string>>, j: nat, property: string)
    requires Chain(parts).Ok? && j < |parts| == |allowed|
    requires forall i :: 0 <= i < |parts| ==> PlainWithin(parts[i].value, allowed[i])
    requires forall i :: 0 <= i < |parts| && i != j ==> property !in allowed[i]
    ensures Declares(Chain(parts).value, property) <==> Declares(parts[j].value, property)
  {
    forall i | 0 <= i < |parts| && i != j ensures !Declares(parts[i].value, property) {
      DeclaresWithin(parts[i].value, allowed[i], property);
    }
    ChainDeclares(parts, property);
  }
}
