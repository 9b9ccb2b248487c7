/**
 * The serialiser the import command writes translation files with: a text
 * buffer that starts with a fixed prologue, receives one tab-indented line per
 * scalar and three lines (key, `[`, `]`) around the children of every nested
 * array, and is closed with `];`.
 */
module FileWriting {
  import opened OrderedMaps
  import opened PhpStrings
  import opened LangTree

  const NL := "\n"
  const Tab := '\t'

  // ---- escape, toKey, toValue (FileWriter.php:69-86) ----

  /** `str_replace('"', '\"', $value)`. */
  function Escape(s: string): string
    decreases |s|
  {
    if s == [] then []
    else (if s[0] == '"' then "\\\"" else [s[0]]) + Escape(s[1..])
  }

  /** The inverse of `Escape`: drop the backslash in front of every quote. */
  function Unescape(s: string): string
    decreases |s|
  {
    if s == [] then []
    else if |s| >= 2 && s[0] == '\\' && s[1] == '"' then "\"" + Unescape(s[2..])
    else [s[0]] + Unescape(s[1..])
  }

  /** The number of quotes in `s`. */
  function Quotes(s: string): nat
    decreases |s|
  {
    if s == [] then 0 else (if s[0] == '"' then 1 else 0) + Quotes(s[1..])
  }

  lemma {:induction false} EscapeNotQuoteFirst(s: string)
    ensures Escape(s) != [] ==> Escape(s)[0] != '"'
  {
  }

  /** Escaping loses nothing: unescaping gives the original string back. */
  lemma {:induction false} EscapeRoundTrip(s: string)
    ensures Unescape(Escape(s)) == s
    decreases |s|
  {
    if s != [] {
      var rest := Escape(s[1..]);
      EscapeRoundTrip(s[1..]);
      EscapeNotQuoteFirst(s[1..]);
      if s[0] == '"' {
        assert Escape(s) == "\\\"" + rest;
        assert (Escape(s))[2..] == rest;
      } else {
        assert Escape(s) == [s[0]] + rest;
        assert (Escape(s))[1..] == rest;
      }
    }
  }

  /** Escaping adds exactly one backslash per quote. */
  lemma {:induction false} EscapeLength(s: string)
    ensures |Escape(s)| == |s| + Quotes(s)
    decreases |s|
  {
    if s != [] {
      EscapeLength(s[1..]);
    }
  }

  /** A string without quotes is left as it is. */
  lemma {:induction false} EscapeWithoutQuotes(s: string)
    requires '"' !in s
    ensures Escape(s) == s
    decreases |s|
  {
    if s != [] {
      assert s[0] != '"';
      assert '"' !in s[1..];
      EscapeWithoutQuotes(s[1..]);
    }
  }

  /** Every quote in an escaped string is preceded by a backslash. */
  lemma {:induction false} EscapedQuotes(s: string)
    ensures forall i :: 0 <= i < |Escape(s)| && Escape(s)[i] == '"' ==> i > 0 && Escape(s)[i - 1] == '\\'
    decreases |s|
  {
    if s != [] {
      EscapedQuotes(s[1..]);
      EscapeNotQuoteFirst(s[1..]);
      var head := if s[0] == '"' then "\\\"" else [s[0]];
      var r := Escape(s);
      assert r == head + Escape(s[1..]);
      forall i | 0 <= i < |r| && r[i] == '"'
        ensures i > 0 && r[i - 1] == '\\'
      {
        if i >= |head| {
          assert r[i] == Escape(s[1..])[i - |head|];
          if i - |head| > 0 {
            assert r[i - 1] == Escape(s[1..])[i - |head| - 1];
          }
        }
      }
    }
  }

  /** `toKey`: the quoted, escaped key followed by ` => `. */
  function ToKey(name: string): string
  {
    "\"" + Escape(name) + "\" => "
  }

  /** `toValue`: the quoted, escaped value. */
  function ToValue(name: string): string
  {
    "\"" + Escape(name) + "\""
  }

  /** The key is recovered from its `toKey` text. */
  lemma ToKeyRecovers(name: string)
    ensures var t := ToKey(name);
            |t| >= 6 && t[0] == '"' && t[|t| - 5..] == "\" => " && Unescape(t[1..|t| - 5]) == name
  {
    var t := ToKey(name);
    assert t[1..|t| - 5] == Escape(name);
    EscapeRoundTrip(name);
  }

  /** The value is recovered from its `toValue` text. */
  lemma ToValueRecovers(name: string)
    ensures var t := ToValue(name);
            |t| >= 2 && t[0] == '"' && t[|t| - 1] == '"' && Unescape(t[1..|t| - 1]) == name
  {
    var t := ToValue(name);
    assert t[1..|t| - 1] == Escape(name);
    EscapeRoundTrip(name);
  }

  // ---- The lines of writeArray (FileWriter.php:41-63) ----

  /** One `writeln` call: its content and its number of tabs. */
  datatype Line = Line(tabs: nat, text: string)

  /** The line `writeValue` writes for a string. */
  function ValueLine(key: string, value: string, depth: nat): Line
  {
    Line(depth, ToKey(key) + ToValue(value) + ",")
  }

  /** The lines `writeArray($array, $depth)` writes, in order. */
  function Lines(entries: OrderedMap<Node>, depth: nat): seq<Line>
    decreases entries
  {
    if entries == [] then []
    else Lines(entries[..|entries| - 1], depth) + EntryLines(entries[|entries| - 1], depth)
  }

  /** The lines of one entry: a value line, or key, `[`, the children one level deeper, `]`. */
  function EntryLines(b: Binding<Node>, depth: nat): seq<Line>
    decreases b
  {
    match b.value
    case Scalar(v) => [ValueLine(b.key, v, depth)]
    case Container(children) =>
      [Line(depth, ToKey(b.key)), Line(depth, "[")] + Lines(children, depth + 1) + [Line(depth, "]")]
  }

  /** What `writeln($content, $tabs)` appends. */
  function Render(l: Line): string
  {
    Repeat(Tab, l.tabs) + l.text + NL
  }

  function Text(lines: seq<Line>): string
    decreases |lines|
  {
    if lines == [] then "" else Text(lines[..|lines| - 1]) + Render(lines[|lines| - 1])
  }

  lemma {:induction false} TextAppend(a: seq<Line>, b: seq<Line>)
    ensures Text(a + b) == Text(a) + Text(b)
    decreases |b|
  {
    if b == [] {
      assert a + b == a;
    } else {
      var n := |b| - 1;
      assert (a + b)[..|a + b| - 1] == a + b[..n];
      TextAppend(a, b[..n]);
    }
  }

  /** The number of strings, and of arrays, anywhere in the tree. */
  function Scalars(entries: OrderedMap<Node>): nat
    decreases entries
  {
    if entries == [] then 0
    else
      var b := entries[|entries| - 1];
      Scalars(entries[..|entries| - 1]) + (match b.value case Scalar(_) => 1 case Container(c) => Scalars(c))
  }

  function Containers(entries: OrderedMap<Node>): nat
    decreases entries
  {
    if entries == [] then 0
    else
      var b := entries[|entries| - 1];
      Containers(entries[..|entries| - 1]) + (match b.value case Scalar(_) => 0 case Container(c) => 1 + Containers(c))
  }

  /** One line per string and three per array. */
  lemma {:induction false} LinesCount(entries: OrderedMap<Node>, depth: nat)
    ensures |Lines(entries, depth)| == Scalars(entries) + 3 * Containers(entries)
    decreases entries
  {
    if entries != [] {
      var b := entries[|entries| - 1];
      LinesCount(entries[..|entries| - 1], depth);
      match b.value
      case Scalar(_) =>
      case Container(c) =>
        LinesCount(c, depth + 1);
    }
  }

  /** The lines an entry writes at its own depth: its value line, or its key, `[` and `]` lines. */
  function OwnLines(b: Binding<Node>, depth: nat): seq<Line>
  {
    match b.value
    case Scalar(v) => [ValueLine(b.key, v, depth)]
    case Container(_) => [Line(depth, ToKey(b.key)), Line(depth, "["), Line(depth, "]")]
  }

  function TopLines(entries: OrderedMap<Node>, depth: nat): seq<Line>
    decreases |entries|
  {
    if entries == [] then [] else TopLines(entries[..|entries| - 1], depth) + OwnLines(entries[|entries| - 1], depth)
  }

  /** The lines at exactly `depth`. */
  function AtDepth(lines: seq<Line>, depth: nat): seq<Line>
    decreases |lines|
  {
    if lines == [] then []
    else AtDepth(lines[..|lines| - 1], depth) + (if lines[|lines| - 1].tabs == depth then [lines[|lines| - 1]] else [])
  }

  lemma {:induction false} AtDepthAppend(a: seq<Line>, b: seq<Line>, depth: nat)
    ensures AtDepth(a + b, depth) == AtDepth(a, depth) + AtDepth(b, depth)
    decreases |b|
  {
    if b == [] {
      assert a + b == a;
    } else {
      var n := |b| - 1;
      assert (a + b)[..|a + b| - 1] == a + b[..n];
      AtDepthAppend(a, b[..n], depth);
    }
  }

  lemma {:induction false} AtDepthNone(lines: seq<Line>, depth: nat)
    requires forall i :: 0 <= i < |lines| ==> lines[i].tabs > depth
    ensures AtDepth(lines, depth) == []
    decreases |lines|
  {
    if lines != [] {
      AtDepthNone(lines[..|lines| - 1], depth);
    }
  }

  /** Every line has at least `depth` tabs. */
  predicate Deeper(lines: seq<Line>, depth: nat)
  {
    forall i :: 0 <= i < |lines| ==> lines[i].tabs >= depth
  }

  lemma DeeperAppend(a: seq<Line>, b: seq<Line>, depth: nat)
    requires Deeper(a, depth) && Deeper(b, depth)
    ensures Deeper(a + b, depth)
  {
    forall i | 0 <= i < |a + b|
      ensures (a + b)[i].tabs >= depth
    {
      if i >= |a| {
        assert (a + b)[i] == b[i - |a|];
      }
    }
  }

  /** Every line of `writeArray($array, $depth)` has at least `$depth` tabs. */
  lemma {:induction false} LinesDepth(entries: OrderedMap<Node>, depth: nat)
    ensures Deeper(Lines(entries, depth), depth)
    decreases entries
  {
    if entries != [] {
      var b := entries[|entries| - 1];
      LinesDepth(entries[..|entries| - 1], depth);
      match b.value
      case Scalar(_) =>
        DeeperAppend(Lines(entries[..|entries| - 1], depth), EntryLines(b, depth), depth);
      case Container(c) =>
        var head := [Line(depth, ToKey(b.key)), Line(depth, "[")];
        LinesDepth(c, depth + 1);
        DeeperAppend(head, Lines(c, depth + 1), depth);
        DeeperAppend(head + Lines(c, depth + 1), [Line(depth, "]")], depth);
        DeeperAppend(Lines(entries[..|entries| - 1], depth), EntryLines(b, depth), depth);
    }
  }

  lemma AtDepthEntry(b: Binding<Node>, depth: nat)
    ensures AtDepth(EntryLines(b, depth), depth) == OwnLines(b, depth)
  {
    match b.value
    case Scalar(v) =>
      assert [ValueLine(b.key, v, depth)][..0] == [];
    case Container(c) =>
      var head := [Line(depth, ToKey(b.key)), Line(depth, "[")];
      var tail := [Line(depth, "]")];
      LinesDepth(c, depth + 1);
      AtDepthNone(Lines(c, depth + 1), depth);
      AtDepthAppend(head + Lines(c, depth + 1), tail, depth);
      AtDepthAppend(head, Lines(c, depth + 1), depth);
      assert tail[..0] == [];
      assert head[..1] == [Line(depth, ToKey(b.key))];
      assert head[..1][..0] == [];
      assert head + Lines(c, depth + 1) + [] == head + Lines(c, depth + 1);
  }

  /**
   * At its own depth, `writeArray` writes the entries' own lines in iteration
   * order; everything in between belongs to nested arrays and is deeper.
   */
  lemma {:induction false} LinesAtDepth(entries: OrderedMap<Node>, depth: nat)
    ensures AtDepth(Lines(entries, depth), depth) == TopLines(entries, depth)
    decreases entries
  {
    if entries != [] {
      var init := entries[..|entries| - 1];
      var b := entries[|entries| - 1];
      LinesAtDepth(init, depth);
      AtDepthAppend(Lines(init, depth), EntryLines(b, depth), depth);
      AtDepthEntry(b, depth);
    }
  }

  lemma ConcatAssoc(a: string, b: string, c: string)
    ensures (a + b) + c == a + (b + c)
  {
  }

  lemma TextSingle(l: Line)
    ensures Text([l]) == Render(l)
  {
    assert [l][..0] == [];
  }

  lemma TextPair(l1: Line, l2: Line)
    ensures Text([l1, l2]) == Render(l1) + Render(l2)
  {
    assert [l1, l2][..1] == [l1];
    TextSingle(l1);
  }

  /** The text of an array entry: its key and `[` lines, its children one level deeper, its `]` line. */
  lemma ContainerText(key: string, c: OrderedMap<Node>, depth: nat)
    ensures Text(EntryLines(Binding(key, Container(c)), depth))
         == Render(Line(depth, ToKey(key))) + Render(Line(depth, "[")) + Text(Lines(c, depth + 1)) + Render(Line(depth, "]"))
  {
    var head := [Line(depth, ToKey(key)), Line(depth, "[")];
    var tail := [Line(depth, "]")];
    TextPair(head[0], head[1]);
    TextSingle(tail[0]);
    TextAppend(head, Lines(c, depth + 1));
    TextAppend(head + Lines(c, depth + 1), tail);
  }

  // ---- The whole file ----

  const Prologue := "<?php" + NL + "return [" + NL
  const Epilogue := "];" + NL

  lemma PrologueText()
    ensures Prologue == "<?php\nreturn [\n"
  {
  }

  /** The buffer after `new FileWriter($f)`, `write($data)` and `save()`. */
  function FileContent(data: OrderedMap<Node>): string
  {
    Prologue + Text(Lines(data, 1)) + Epilogue
  }

  /** The saved file opens with the prologue and ends with the `];` line. */
  lemma FileContentFrame(data: OrderedMap<Node>)
    ensures Prologue <= FileContent(data)
    ensures |FileContent(data)| >= |Epilogue| + |Prologue|
    ensures FileContent(data)[|FileContent(data)| - |Epilogue|..] == "];\n"
  {
  }

  class FileWriter {
    var filename: string
    var content: string

    /** The constructor: the `<?php` and `return [` lines. */
    constructor (filename: string)
      ensures this.filename == filename
      ensures content == Prologue
    {
      this.filename := filename;
      content := "";
      new;
      Writeln("<?php", 0);
      Writeln("return [", 0);
      assert Repeat(Tab, 0) == "";
    }

    /** `writeln`: `$tabs` tabs, the content, a newline. */
    method Writeln(c: string, tabs: nat)
      modifies this
      ensures content == old(content) + Repeat(Tab, tabs) + c + NL
      ensures content == old(content) + Render(Line(tabs, c))
      ensures filename == old(filename)
    {
      content := content + Repeat(Tab, tabs) + c + NL;
    }

    /** `writeValue`. */
    method WriteValue(k: string, v: string, depth: nat)
      modifies this
      ensures content == old(content) + Render(ValueLine(k, v, depth))
      ensures filename == old(filename)
    {
      Writeln(ToKey(k) + ToValue(v) + ",", depth);
    }

    /** `writeArray`. */
    method WriteArray(entries: OrderedMap<Node>, depth: nat)
      modifies this
      ensures content == old(content) + Text(Lines(entries, depth))
      ensures filename == old(filename)
      decreases entries
    {
      for i := 0 to |entries|
        invariant content == old(content) + Text(Lines(entries[..i], depth))
        invariant filename == old(filename)
      {
        assert entries[..i + 1][..i] == entries[..i];
        WriteEntry(entries[i], depth);
        TextAppend(Lines(entries[..i], depth), EntryLines(entries[i], depth));
        ConcatAssoc(old(content), Text(Lines(entries[..i], depth)), Text(EntryLines(entries[i], depth)));
      }
      assert entries[..|entries|] == entries;
    }

    /** One turn of `writeArray`'s loop. */
    method WriteEntry(b: Binding<Node>, depth: nat)
      modifies this
      ensures content == old(content) + Text(EntryLines(b, depth))
      ensures filename == old(filename)
      decreases b
    {
      match b.value
      case Container(children) =>
        ContainerText(b.key, children, depth);
        Writeln(ToKey(b.key), depth);
        ghost var keyed := content;
        Writeln("[", depth);
        ghost var bracketed := content;
        WriteArray(children, depth + 1);
        ghost var nested := content;
        Writeln("]", depth);
        ghost var k, o, t, c := Render(Line(depth, ToKey(b.key))), Render(Line(depth, "[")), Text(Lines(children, depth + 1)), Render(Line(depth, "]"));
        ConcatAssoc(old(content), k, o);
        ConcatAssoc(old(content), k + o, t);
        ConcatAssoc(old(content), k + o + t, c);
      case Scalar(v) =>
        TextSingle(ValueLine(b.key, v, depth));
        WriteValue(b.key, v, depth);
    }

    /** `write`: the top-level array at depth 1. */
    method Write(data: OrderedMap<Node>)
      modifies this
      ensures content == old(content) + Text(Lines(data, 1))
      ensures filename == old(filename)
    {
      WriteArray(data, 1);
    }

    /** `save`, up to the buffer: the closing line. */
    method Save()
      modifies this
      ensures content == old(content) + Epilogue
      ensures filename == old(filename)
    {
      Writeln("];", 0);
    }
  }
}
