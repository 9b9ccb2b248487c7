/**
 * The PHP string built-ins the translation commands rely on, for a
 * one-character delimiter: `explode`, `implode`, `empty` on strings and
 * `str_repeat`.
 */
module PhpStrings {

  /** `explode($sep, $s)`: the pieces between occurrences of `sep`; never empty. */
  function Explode(sep: char, s: string): (parts: seq<string>)
    ensures |parts| >= 1
  {
    if s == [] then [""]
    else
      var rest := Explode(sep, s[1..]);
      if s[0] == sep then [""] + rest
      else [[s[0]] + rest[0]] + rest[1..]
  }

  /** `implode($sep, $parts)`. */
  function Implode(sep: char, parts: seq<string>): string
  {
    if parts == [] then ""
    else if |parts| == 1 then parts[0]
    else parts[0] + [sep] + Implode(sep, parts[1..])
  }

  predicate NoSeparator(sep: char, parts: seq<string>)
  {
    forall i :: 0 <= i < |parts| ==> sep !in parts[i]
  }

  /** Joining the pieces gives back the string, and no piece holds the delimiter. */
  lemma ExplodeImplode(sep: char, s: string)
    ensures Implode(sep, Explode(sep, s)) == s
    ensures NoSeparator(sep, Explode(sep, s))
  {
    ExplodeJoin(sep, s);
    ExplodePiecesFree(sep, s);
  }

  lemma {:induction false} ExplodeJoin(sep: char, s: string)
    ensures Implode(sep, Explode(sep, s)) == s
  {
    if s != [] {
      var rest := Explode(sep, s[1..]);
      ExplodeJoin(sep, s[1..]);
      assert s == [s[0]] + s[1..];
      if s[0] == sep {
        ImplodeCons(sep, "", rest);
      } else if |rest| >= 2 {
        assert rest == [rest[0]] + rest[1..];
        ImplodeCons(sep, rest[0], rest[1..]);
        ImplodeCons(sep, [s[0]] + rest[0], rest[1..]);
      }
    }
  }

  lemma {:induction false} ExplodePiecesFree(sep: char, s: string)
    ensures NoSeparator(sep, Explode(sep, s))
  {
    if s != [] {
      var rest := Explode(sep, s[1..]);
      var e := Explode(sep, s);
      ExplodePiecesFree(sep, s[1..]);
      if s[0] == sep {
        assert forall i :: 1 <= i < |e| ==> e[i] == rest[i - 1];
      } else {
        assert sep !in rest[0];
        assert forall i :: 1 <= i < |e| ==> e[i] == rest[i];
      }
    }
  }

  /** The other direction: splitting a join of delimiter-free pieces gives the pieces back. */
  lemma {:induction false} ImplodeExplode(sep: char, parts: seq<string>)
    requires |parts| >= 1 && NoSeparator(sep, parts)
    ensures Explode(sep, Implode(sep, parts)) == parts
  {
    if |parts| == 1 {
      ExplodeFree(sep, parts[0]);
    } else {
      ImplodeExplode(sep, parts[1..]);
      ExplodeAppend(sep, parts[0], Implode(sep, parts[1..]));
    }
  }

  lemma {:induction false} ExplodeFree(sep: char, s: string)
    requires sep !in s
    ensures Explode(sep, s) == [s]
  {
    if s != [] {
      ExplodeFree(sep, s[1..]);
      assert [s[0]] + s[1..] == s;
    }
  }

  lemma {:induction false} ExplodeAppend(sep: char, a: string, b: string)
    requires sep !in a
    ensures Explode(sep, a + [sep] + b) == [a] + Explode(sep, b)
  {
    if a == [] {
      assert a + [sep] + b == [sep] + b;
      assert ([sep] + b)[1..] == b;
    } else {
      ExplodeAppend(sep, a[1..], b);
      assert (a + [sep] + b)[1..] == a[1..] + [sep] + b;
      assert [a[0]] + a[1..] == a;
    }
  }

  /**
   * `dropExtension` (ExportLanguages.php): `explode` on '.', drop the last
   * piece, `implode` the rest.
   */
  function DropExtension(filename: string): string
  {
    var parts := Explode('.', filename);
    Implode('.', parts[..|parts| - 1])
  }

  /**
   * Only the last '.'-separated segment goes: a name with a dot is the result,
   * a dot and a dot-free extension; a name without a dot gives "".
   */
  lemma DropExtensionSplits(filename: string)
    ensures '.' !in filename ==> DropExtension(filename) == ""
    ensures '.' in filename ==>
      exists ext :: '.' !in ext && filename == DropExtension(filename) + "." + ext
  {
    var parts := Explode('.', filename);
    ExplodeImplode('.', filename);
    if '.' !in filename {
      ExplodeFree('.', filename);
    } else {
      ExplodeSeveral('.', filename);
      ImplodeLast('.', parts);
      assert '.' !in parts[|parts| - 1];
    }
  }

  lemma {:induction false} ExplodeSeveral(sep: char, s: string)
    requires sep in s
    ensures |Explode(sep, s)| >= 2
  {
    if s[0] != sep {
      assert sep in s[1..] by { assert s == [s[0]] + s[1..]; }
      ExplodeSeveral(sep, s[1..]);
    }
  }

  /** Joining `[a] + rest` puts `a` and a delimiter in front of the join of `rest`. */
  lemma ImplodeCons(sep: char, a: string, rest: seq<string>)
    requires |rest| >= 1
    ensures Implode(sep, [a] + rest) == a + [sep] + Implode(sep, rest)
  {
    assert ([a] + rest)[1..] == rest;
  }

  /**
   * A join of delimiter-free pieces starts with `a` and the delimiter, for a
   * delimiter-free `a`, only when its first piece is `a` and there are more.
   */
  lemma SegmentPrefix(sep: char, a: string, parts: seq<string>)
    requires |parts| >= 1 && NoSeparator(sep, parts) && sep !in a
    requires a + [sep] <= Implode(sep, parts)
    ensures parts[0] == a && |parts| >= 2
  {
    var s := Implode(sep, parts);
    var t := s[|a| + 1..];
    assert s == a + [sep] + t;
    ImplodeExplode(sep, parts);
    ExplodeAppend(sep, a, t);
  }

  /** A join of two or more pieces holds the delimiter. */
  lemma SeparatorInImplode(sep: char, parts: seq<string>)
    requires |parts| >= 2
    ensures sep in Implode(sep, parts)
  {
    assert Implode(sep, parts)[|parts[0]|] == sep;
  }

  lemma {:induction false} ImplodeLast(sep: char, parts: seq<string>)
    requires |parts| >= 2
    ensures Implode(sep, parts) == Implode(sep, parts[..|parts| - 1]) + [sep] + parts[|parts| - 1]
  {
    if |parts| > 2 {
      ImplodeLast(sep, parts[1..]);
      assert parts[1..][..|parts| - 2] == parts[..|parts| - 1][1..];
    }
  }

  lemma DropExtensionOfMessages()
    ensures DropExtension("messages.php") == "messages"
  {
    ImplodeExplode('.', ["messages", "php"]);
    assert Implode('.', ["messages", "php"]) == "messages.php";
  }

  lemma DropExtensionKeepsInnerDots()
    ensures DropExtension("a.b.php") == "a.b"
  {
    var parts := ["a", "b", "php"];
    assert Implode('.', ["b", "php"]) == "b.php";
    assert Implode('.', parts) == "a.b.php";
    ImplodeExplode('.', parts);
    assert Explode('.', "a.b.php") == parts;
    assert parts[..2] == ["a", "b"];
    assert Implode('.', ["b"]) == "b";
    assert Implode('.', ["a", "b"]) == "a.b";
  }

  lemma DropExtensionWithoutDot()
    ensures DropExtension("README") == ""
  {
    ExplodeFree('.', "README");
  }

  lemma PrefixTrans(a: string, b: string, c: string)
    requires a <= b && b <= c
    ensures a <= c
  {
    assert a == b[..|a|] && b == c[..|b|];
  }

  /** PHP's `empty()` on a string: true for "" and for "0". */
  predicate IsEmpty(v: string)
  {
    v == "" || v == "0"
  }

  /** `str_repeat($c, $n)` for one character. */
  function Repeat(c: char, n: nat): (r: string)
    ensures |r| == n && forall i :: 0 <= i < n ==> r[i] == c
  {
    if n == 0 then "" else [c] + Repeat(c, n - 1)
  }
}
