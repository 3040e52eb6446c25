/** Joining, splitting and quoting of strings, with the round trips between them. */
module Strings {
  import opened Wrappers

  /** The parts with `sep` between consecutive parts, as `Array.prototype.join(sep)`. */
  function Join(parts: seq<string>, sep: string): string
  {
    if |parts| == 0 then ""
    else if |parts| == 1 then parts[0]
    else parts[0] + sep + Join(parts[1..], sep)
  }

  /** Joining one more part appends the separator and that part. */
  lemma {:induction false} JoinSnoc(parts: seq<string>, last: string, sep: string)
    requires |parts| >= 1
    ensures Join(parts + [last], sep) == Join(parts, sep) + sep + last
  {
    if |parts| == 1 {
      assert (parts + [last])[1..] == [last];
    } else {
      assert (parts + [last])[1..] == parts[1..] + [last];
      JoinSnoc(parts[1..], last, sep);
    }
  }

  /** The pieces of `s` between occurrences of `sep`, as `String.prototype.split`
      with a one-character separator; never empty. */
  function Split(s: string, sep: char): (r: seq<string>)
    ensures |r| >= 1
  {
    if s == [] then [""]
    else if s[0] == sep then [""] + Split(s[1..], sep)
    else
      var rest := Split(s[1..], sep);
      [[s[0]] + rest[0]] + rest[1..]
  }

  lemma {:induction false} SplitWithoutSeparator(s: string, sep: char)
    requires sep !in s
    ensures Split(s, sep) == [s]
  {
    if s != [] {
      SplitWithoutSeparator(s[1..], sep);
      assert [s[0]] + s[1..] == s;
    }
  }

  lemma {:induction false} SplitAtFirstSeparator(a: string, b: string, sep: char)
    requires sep !in a
    ensures Split(a + [sep] + b, sep) == [a] + Split(b, sep)
  {
    if a == [] {
      assert a + [sep] + b == [sep] + b;
    } else {
      var s := a + [sep] + b;
      assert s[0] == a[0];
      assert s[1..] == a[1..] + [sep] + b;
      SplitAtFirstSeparator(a[1..], b, sep);
      assert [a[0]] + a[1..] == a;
    }
  }

  /** Splitting a join on its one-character separator gives the parts back,
      provided no part contains that character. */
  lemma {:induction false} SplitJoin(parts: seq<string>, sep: char)
    requires |parts| >= 1
    requires forall i :: 0 <= i < |parts| ==> sep !in parts[i]
    ensures Split(Join(parts, [sep]), sep) == parts
  {
    if |parts| == 1 {
      SplitWithoutSeparator(parts[0], sep);
    } else {
      SplitJoin(parts[1..], sep);
      SplitAtFirstSeparator(parts[0], Join(parts[1..], [sep]), sep);
      assert [parts[0]] + parts[1..] == parts;
    }
  }

  /** `s` wrapped in double quotes: a CSS string token. */
  function Quote(s: string): string
  {
    "\"" + s + "\""
  }

  function QuoteAll(rows: seq<string>): seq<string>
  {
    seq(|rows|, i requires 0 <= i < |rows| => Quote(rows[i]))
  }

  /** The index of the first double quote in `s`, or `|s|` when there is none. */
  function QuoteIndex(s: string): (k: nat)
    ensures k <= |s|
    ensures k < |s| ==> s[k] == '"'
    ensures forall i :: 0 <= i < k ==> s[i] != '"'
  {
    if s == [] then 0
    else if s[0] == '"' then 0
    else 1 + QuoteIndex(s[1..])
  }

  /** Reads a sequence of double-quoted strings separated by spaces (the shape
      of a `grid-template-areas` value); `None` when `s` is not of that shape. */
  function ParseQuoted(s: string): Option<seq<string>>
    decreases |s|
  {
    if s == [] then Some([])
    else if s[0] == ' ' then ParseQuoted(s[1..])
    else if s[0] == '"' then
      var k := QuoteIndex(s[1..]);
      if k == |s| - 1 then None
      else
        match ParseQuoted(s[k + 2..])
        case None => None
        case Some(rows) => Some([s[1..k + 1]] + rows)
    else None
  }

  lemma QuotedPrefix(row: string, rest: string)
    requires '"' !in row
    ensures var s := Quote(row) + rest;
      && s[0] == '"'
      && QuoteIndex(s[1..]) == |row|
      && s[1..|row| + 1] == row
      && s[|row| + 2..] == rest
  {
    var s := Quote(row) + rest;
    assert s[1..] == row + ("\"" + rest);
    QuoteIndexOf(row, "\"" + rest);
  }

  lemma {:induction false} QuoteIndexOf(a: string, b: string)
    requires '"' !in a
    requires |b| > 0 && b[0] == '"'
    ensures QuoteIndex(a + b) == |a|
  {
    if a != [] {
      assert (a + b)[1..] == a[1..] + b;
      QuoteIndexOf(a[1..], b);
    } else {
      assert a + b == b;
    }
  }

  /** A quoted row in front of `rest` is read as that row, followed by the rows of `rest`. */
  lemma ParseQuotedRow(row: string, rest: string, rows: seq<string>)
    requires '"' !in row
    requires ParseQuoted(rest) == Some(rows)
    ensures ParseQuoted(Quote(row) + rest) == Some([row] + rows)
  {
    QuotedPrefix(row, rest);
    var s := Quote(row) + rest;
    assert s != [] && s[0] != ' ';
  }

  /** Quoting each row and joining with single spaces is undone by ParseQuoted,
      provided no row contains a double quote. */
  lemma {:induction false} ParseQuotedJoin(rows: seq<string>)
    requires forall i :: 0 <= i < |rows| ==> '"' !in rows[i]
    ensures ParseQuoted(Join(QuoteAll(rows), " ")) == Some(rows)
  {
    if |rows| == 1 {
      assert Join(QuoteAll(rows), " ") == Quote(rows[0]) + "";
      ParseQuotedRow(rows[0], "", []);
      assert [rows[0]] + [] == rows;
    } else if |rows| > 1 {
      ParseQuotedJoin(rows[1..]);
      ParseQuotedCons(rows);
    }
  }

  lemma ParseQuotedCons(rows: seq<string>)
    requires |rows| > 1 && '"' !in rows[0]
    requires ParseQuoted(Join(QuoteAll(rows[1..]), " ")) == Some(rows[1..])
    ensures ParseQuoted(Join(QuoteAll(rows), " ")) == Some(rows)
  {
    var tail := Join(QuoteAll(rows[1..]), " ");
    JoinQuotedCons(rows);
    ParseSpaced(tail, rows[1..]);
    ParseQuotedRow(rows[0], " " + tail, rows[1..]);
    assert [rows[0]] + rows[1..] == rows;
  }

  lemma JoinQuotedCons(rows: seq<string>)
    requires |rows| > 1
    ensures Join(QuoteAll(rows), " ") == Quote(rows[0]) + (" " + Join(QuoteAll(rows[1..]), " "))
  {
    assert QuoteAll(rows)[1..] == QuoteAll(rows[1..]);
  }

  lemma ParseSpaced(tail: string, rows: seq<string>)
    requires ParseQuoted(tail) == Some(rows)
    ensures ParseQuoted(" " + tail) == Some(rows)
  {
    assert (" " + tail)[1..] == tail;
  }
}
