/** Breakpoint tables and the media-query section that all nine per-breakpoint
    interpolations share:
      Object.keys(props.breakPoints).map(fragment).reverse().reduce((a, b) => a + b) */
module Breakpoints {
  import opened Wrappers
  import opened JsValues
  import opened Css

  /** One breakpoint: its name and its `max-width` threshold in pixels. */
  type Entry = (string, nat)

  /** The shared default table (`breakPoints` of src/components/utils.js). */
  const DefaultTable: Table := [("phone", 425), ("tablet", 768), ("laptop", 1024), ("desktop", 1440)]

  /** The table that `Object.keys(v)` and `v[key]` read from a `breakPoints`
      value. A number or boolean has no keys; `undefined` and `null` throw. */
  function TableOf(v: Value): (r: Result<Table, JsError>)
    ensures v.Obj? ==> r == Ok(v.entries)
    ensures v == Undefined || v == Null ==> r == Err(NotAnObject)
    ensures v.Bool? || v.Num? ==> r == Ok([])
  {
    match v
    case Obj(t) => Ok(t)
    case Undefined => Err(NotAnObject)
    case Null => Err(NotAnObject)
    case Bool(_) => Ok([])
    case Num(_) => Ok([])
    case Str(s) => if s == "" then Ok([]) else Err(KeysOutsideModel)
    case Arr(xs) => if xs == [] then Ok([]) else Err(KeysOutsideModel)
  }

  function Reverse<T(!new)>(s: seq<T>): (r: seq<T>)
    ensures |r| == |s|
    ensures forall i :: 0 <= i < |s| ==> r[i] == s[|s| - 1 - i]
    ensures forall x :: x in r <==> x in s
  {
    if s == [] then []
    else
      assert s == s[..|s| - 1] + [s[|s| - 1]];
      [s[|s| - 1]] + Reverse(s[..|s| - 1])
  }

  /** `Array.prototype.map` with a callback that may throw: the callbacks run
      in table order and the first throw ends the map. */
  function MapEntries(t: Table, f: Entry -> Style): (r: Result<seq<seq<Rule>>, JsError>)
    ensures r.Ok? <==> forall i :: 0 <= i < |t| ==> f(t[i]).Ok?
    ensures r.Ok? ==> |r.value| == |t| && forall i :: 0 <= i < |t| ==> r.value[i] == f(t[i]).value
    ensures r.Err? ==> exists i :: 0 <= i < |t| && f(t[i]) == Err(r.error) && forall j :: 0 <= j < i ==> f(t[j]).Ok?
    decreases |t|
  {
    if t == [] then Ok([])
    else
      var pre := t[..|t| - 1];
      match MapEntries(pre, f)
      case Err(e) =>
        var i :| 0 <= i < |pre| && f(pre[i]) == Err(e) && forall j :: 0 <= j < i ==> f(pre[j]).Ok?;
        assert f(t[i]) == Err(e) && forall j :: 0 <= j < i ==> t[j] == pre[j];
        Err(e)
      case Ok(xs) =>
        match f(t[|t| - 1])
        case Err(e) =>
          assert forall j :: 0 <= j < |t| - 1 ==> t[j] == pre[j];
          Err(e)
        case Ok(x) => Ok(xs + [x])
  }

  function Flatten(xs: seq<seq<Rule>>): seq<Rule>
  {
    if xs == [] then [] else xs[0] + Flatten(xs[1..])
  }

  /** The left fold that `reduce((previous, current) => previous + current)` performs. */
  function FoldConcat(acc: seq<Rule>, rest: seq<seq<Rule>>): seq<Rule>
    decreases |rest|
  {
    if rest == [] then acc else FoldConcat(acc + rest[0], rest[1..])
  }

  lemma {:induction false} FoldConcatFlatten(acc: seq<Rule>, rest: seq<seq<Rule>>)
    ensures FoldConcat(acc, rest) == acc + Flatten(rest)
    decreases |rest|
  {
    if rest != [] {
      FoldConcatFlatten(acc + rest[0], rest[1..]);
    }
  }

  /** `xs.reduce((previous, current) => previous + current)` with no initial
      value: throws on an empty array, concatenates otherwise. */
  function ReduceConcat(xs: seq<seq<Rule>>): (r: Style)
    ensures r.Err? <==> xs == []
    ensures r.Err? ==> r.error == ReduceOfEmptyArray
    ensures r.Ok? ==> r.value == Flatten(xs)
  {
    if xs == [] then Err(ReduceOfEmptyArray)
    else
      FoldConcatFlatten(xs[0], xs[1..]);
      assert xs[0] + Flatten(xs[1..]) == Flatten(xs);
      Ok(FoldConcat(xs[0], xs[1..]))
  }

  /** The rules of a fragment that did not throw. */
  function Fragment(r: Style): seq<Rule>
  {
    match r
    case Ok(rules) => rules
    case Err(_) => []
  }

  /** The fragments of the entries of `s`, in the order of `s`, concatenated. */
  function Collect(s: Table, f: Entry -> Style): seq<Rule>
  {
    if s == [] then [] else Fragment(f(s[0])) + Collect(s[1..], f)
  }

  lemma {:induction false} FlattenCollect(s: Table, f: Entry -> Style, xs: seq<seq<Rule>>)
    requires |xs| == |s|
    requires forall i :: 0 <= i < |s| ==> xs[i] == Fragment(f(s[i]))
    ensures Flatten(xs) == Collect(s, f)
  {
    if s != [] {
      FlattenCollect(s[1..], f, xs[1..]);
    }
  }

  /** One breakpoint section: the fragment of every entry, the LAST table
      entry first; it throws on an empty table or when a fragment throws
      (the first one in table order). */
  function MediaSection(t: Table, f: Entry -> Style): (r: Style)
    ensures t == [] ==> r == Err(ReduceOfEmptyArray)
    ensures r.Err? <==> t == [] || exists i :: 0 <= i < |t| && f(t[i]).Err?
    ensures r.Ok? ==> r.value == Collect(Reverse(t), f)
  {
    match MapEntries(t, f)
    case Err(e) => Err(e)
    case Ok(frags) =>
      var r := ReduceConcat(Reverse(frags));
      if r.Ok? then FlattenCollect(Reverse(t), f, Reverse(frags)); r else r
  }

  /** A section over a non-empty table that throws throws the error of the
      first fragment, in table order, that throws. */
  lemma MediaSectionFirstError(t: Table, f: Entry -> Style)
    requires t != [] && MediaSection(t, f).Err?
    ensures exists i :: 0 <= i < |t| && f(t[i]) == Err(MediaSection(t, f).error)
                        && forall j :: 0 <= j < i ==> f(t[j]).Ok?
  {
    assert MapEntries(t, f).Err?;
  }

  /** A section of a component with props `p`: its table is `props.breakPoints`. */
  function Section(p: Props, f: Entry -> Style): (r: Style)
    ensures Get(p, "breakPoints").Obj? ==> r == MediaSection(Get(p, "breakPoints").entries, f)
    ensures Get(p, "breakPoints") in {Undefined, Null} ==> r == Err(NotAnObject)
    ensures Get(p, "breakPoints").Bool? || Get(p, "breakPoints").Num? ==> r == Err(ReduceOfEmptyArray)
    ensures TableOf(Get(p, "breakPoints")).Ok? ==> r == MediaSection(TableOf(Get(p, "breakPoints")).value, f)
    ensures TableOf(Get(p, "breakPoints")) == Err(KeysOutsideModel) ==> r == Err(KeysOutsideModel)
  {
    match TableOf(Get(p, "breakPoints"))
    case Err(e) => Err(e)
    case Ok(t) => MediaSection(t, f)
  }

  lemma {:induction false} MapEntriesCongruent(t: Table, f1: Entry -> Style, f2: Entry -> Style)
    requires forall i :: 0 <= i < |t| ==> f1(t[i]) == f2(t[i])
    ensures MapEntries(t, f1) == MapEntries(t, f2)
    decreases |t|
  {
    if t != [] {
      MapEntriesCongruent(t[..|t| - 1], f1, f2);
    }
  }

  /** A section depends on its fragment only at the table's entries. */
  lemma MediaSectionCongruent(t: Table, f1: Entry -> Style, f2: Entry -> Style)
    requires forall i :: 0 <= i < |t| ==> f1(t[i]) == f2(t[i])
    ensures MediaSection(t, f1) == MediaSection(t, f2)
  {
    MapEntriesCongruent(t, f1, f2);
  }

  /** The entries whose `<prefix>-<name>` prop is truthy, in table order. */
  function Selected(t: Table, p: Props, prefix: string): (s: Table)
    ensures forall e :: e in s <==> e in t && Truthy(Get(p, Key(prefix, e.0)))
    ensures |s| <= |t|
    decreases |t|
  {
    if t == [] then []
    else
      var last := t[|t| - 1];
      assert t == t[..|t| - 1] + [last];
      Selected(t[..|t| - 1], p, prefix) + (if Truthy(Get(p, Key(prefix, last.0))) then [last] else [])
  }

  /** When an entry whose prop is falsy contributes nothing, a section is the
      fragments of the selected entries, last selected entry first. */
  lemma {:induction false} CollectSelected(t: Table, p: Props, prefix: string, f: Entry -> Style)
    requires forall e :: e in t && !Truthy(Get(p, Key(prefix, e.0))) ==> f(e) == Ok([])
    ensures Collect(Reverse(t), f) == Collect(Reverse(Selected(t, p, prefix)), f)
    decreases |t|
  {
    if t != [] {
      var last, pre := t[|t| - 1], t[..|t| - 1];
      assert t == pre + [last];
      CollectSelected(pre, p, prefix, f);
      assert Reverse(t) == [last] + Reverse(pre);
      assert Reverse(t)[1..] == Reverse(pre);
      var sp := Selected(pre, p, prefix);
      if Truthy(Get(p, Key(prefix, last.0))) {
        assert Selected(t, p, prefix) == sp + [last];
        assert Reverse(sp + [last]) == [last] + Reverse(sp);
        assert Reverse(sp + [last])[1..] == Reverse(sp);
      } else {
        assert Selected(t, p, prefix) == sp;
      }
    }
  }

  /** A section of props `p` whose fragment gives nothing for a breakpoint
      whose `<prefix>-<bp>` prop is falsy is the fragments of the selected
      entries, last selected entry first. */
  lemma SectionOfSelected(p: Props, t: Table, prefix: string, f: Entry -> Style)
    requires Get(p, "breakPoints") == Obj(t)
    requires Section(p, f).Ok?
    requires forall e :: e in t && !Truthy(Get(p, Key(prefix, e.0))) ==> f(e) == Ok([])
    ensures Section(p, f).value == Collect(Reverse(Selected(t, p, prefix)), f)
  {
    CollectSelected(t, p, prefix, f);
  }

  /** A section whose fragments are one rule each: rule k of the output is
      the fragment of entry k. */
  lemma {:induction false} CollectSingles(s: Table, f: Entry -> Style)
    requires forall e :: e in s ==> f(e).Ok? && |f(e).value| == 1
    ensures |Collect(s, f)| == |s|
    ensures forall k :: 0 <= k < |s| ==> Collect(s, f)[k] == f(s[k]).value[0]
  {
    if s != [] {
      assert s[0] in s;
      assert forall e :: e in s[1..] ==> e in s;
      CollectSingles(s[1..], f);
    }
  }

  /** A section whose fragments are two rules each: rules 2k and 2k+1 of the
      output are the fragment of entry k. */
  lemma {:induction false} CollectPairs(s: Table, f: Entry -> Style)
    requires forall e :: e in s ==> f(e).Ok? && |f(e).value| == 2
    ensures |Collect(s, f)| == 2 * |s|
    ensures forall k :: 0 <= k < |s| ==>
      Collect(s, f)[2 * k] == f(s[k]).value[0] && Collect(s, f)[2 * k + 1] == f(s[k]).value[1]
  {
    if s != [] {
      assert s[0] in s;
      assert forall e :: e in s[1..] ==> e in s;
      CollectPairs(s[1..], f);
      var c := Collect(s, f);
      forall k | 1 <= k < |s|
        ensures c[2 * k] == f(s[k]).value[0] && c[2 * k + 1] == f(s[k]).value[1]
      {
        assert c[2 * k] == Collect(s[1..], f)[2 * (k - 1)];
        assert c[2 * k + 1] == Collect(s[1..], f)[2 * (k - 1) + 1];
      }
    }
  }

  lemma {:induction false} CollectPlainWithin(s: Table, f: Entry -> Style, allowed: set<string>)
    requires forall e :: e in s ==> PlainWithin(Fragment(f(e)), allowed)
    ensures PlainWithin(Collect(s, f), allowed)
  {
    if s != [] {
      assert s[0] in s;
      assert forall e :: e in s[1..] ==> e in s;
      CollectPlainWithin(s[1..], f, allowed);
      var a: seq<Rule>, b: seq<Rule> := Fragment(f(s[0])), Collect(s[1..], f);
      forall i | 0 <= i < |a + b| && (a + b)[i].Plain?
        ensures (a + b)[i].decl.property in allowed
      {
        if i >= |a| { assert (a + b)[i] == b[i - |a|]; }
      }
    }
  }

  /** A section whose every fragment declares unconditionally only properties
      of `allowed`, as a whole does the same. */
  lemma MediaSectionPlainWithin(t: Table, f: Entry -> Style, allowed: set<string>)
    requires forall e :: e in t ==> PlainWithin(Fragment(f(e)), allowed)
    ensures MediaSection(t, f).Ok? ==> PlainWithin(MediaSection(t, f).value, allowed)
  {
    if MediaSection(t, f).Ok? {
      assert forall e :: e in Reverse(t) ==> e in t;
      CollectPlainWithin(Reverse(t), f, allowed);
    }
  }

  /** Which entries a section selects depends only on the props named
      `<prefix>-<name>` for the names in the table: a per-breakpoint prop for
      a breakpoint the table lacks is never read. */
  lemma {:induction false} SelectedReadsOnlyTableKeys(t: Table, p1: Props, p2: Props, prefix: string)
    requires forall i :: 0 <= i < |t| ==> Get(p1, Key(prefix, t[i].0)) == Get(p2, Key(prefix, t[i].0))
    ensures Selected(t, p1, prefix) == Selected(t, p2, prefix)
    decreases |t|
  {
    if t != [] {
      SelectedReadsOnlyTableKeys(t[..|t| - 1], p1, p2, prefix);
    }
  }

  /** Thresholds strictly increasing along the table. */
  predicate Ascending(t: Table)
  {
    forall i, j :: 0 <= i < j < |t| ==> t[i].1 < t[j].1
  }

  /** Thresholds strictly decreasing along the table. */
  predicate Descending(t: Table)
  {
    forall i, j :: 0 <= i < j < |t| ==> t[i].1 > t[j].1
  }

  lemma {:induction false} SelectedAscending(t: Table, p: Props, prefix: string)
    requires Ascending(t)
    ensures Ascending(Selected(t, p, prefix))
    decreases |t|
  {
    if t != [] {
      var last, pre := t[|t| - 1], t[..|t| - 1];
      SelectedAscending(pre, p, prefix);
      var sp := Selected(pre, p, prefix);
      forall e | e in sp ensures e.1 < last.1 {
        var i :| 0 <= i < |pre| && pre[i] == e;
      }
    }
  }

  /** For a table listed in ascending threshold order, every section emits its
      media blocks from the widest breakpoint to the narrowest. The code
      reverses the key order; it does not sort. */
  lemma SelectedReverseDescending(t: Table, p: Props, prefix: string)
    requires Ascending(t)
    ensures Descending(Reverse(Selected(t, p, prefix)))
  {
    SelectedAscending(t, p, prefix);
  }

  lemma {:induction false} SelectedDescending(t: Table, p: Props, prefix: string)
    requires Descending(t)
    ensures Descending(Selected(t, p, prefix))
    decreases |t|
  {
    if t != [] {
      var last, pre := t[|t| - 1], t[..|t| - 1];
      SelectedDescending(pre, p, prefix);
      var sp := Selected(pre, p, prefix);
      forall e | e in sp ensures e.1 > last.1 {
        var i :| 0 <= i < |pre| && pre[i] == e;
      }
    }
  }

  /** A table listed from the widest breakpoint down gets its media blocks
      from the narrowest up: the order of the blocks follows the order of the
      table's keys, not the thresholds. */
  lemma SelectedReverseAscending(t: Table, p: Props, prefix: string)
    requires Descending(t)
    ensures Ascending(Reverse(Selected(t, p, prefix)))
  {
    SelectedDescending(t, p, prefix);
  }

  lemma DefaultTableAscending()
    ensures Ascending(DefaultTable)
  {
  }
}
