/** `indent` of script/docgen/docgen.go, which indents command usage text
    for the generated package documentation: it puts the prefix in front
    of the text and after every newline. */
module DocGen {

  /** Every '\n' of s replaced by r (a regular-expression replace-all with
      the pattern `\n`). */
  function ReplaceNewlines(s: string, r: string): string
    decreases |s|
  {
    if s == [] then []
    else (if s[0] == '\n' then r else [s[0]]) + ReplaceNewlines(s[1..], r)
  }

  /** indent(input, prefix): the prefix, then the input, with every
      newline replaced by a newline and the prefix (the prefix is left
      alone when it holds no newline itself). */
  function Indent(input: string, prefix: string): (r: string)
    ensures '\n' !in prefix ==> r == prefix + ReplaceNewlines(input, "\n" + prefix)
  {
    ReplaceNewlinesAppend(prefix, input, "\n" + prefix);
    if '\n' in prefix then ReplaceNewlines(prefix + input, "\n" + prefix)
    else
      NoNewlineUnchanged(prefix, "\n" + prefix);
      ReplaceNewlines(prefix + input, "\n" + prefix)
  }

  /** The number of newlines in s. */
  function Newlines(s: string): nat
    decreases |s|
  {
    if s == [] then 0 else (if s[0] == '\n' then 1 else 0) + Newlines(s[1..])
  }

  /** strings.Split(s, "\n"): the lines of s; at least one, possibly empty. */
  function Lines(s: string): (lines: seq<string>)
    ensures |lines| >= 1
    decreases |s|
  {
    if s == [] then [""]
    else
      var rest := Lines(s[1..]);
      if s[0] == '\n' then [""] + rest else [[s[0]] + rest[0]] + rest[1..]
  }

  /** strings.Join(lines, "\n") */
  function Join(lines: seq<string>): string
    requires |lines| >= 1
    decreases |lines|
  {
    if |lines| == 1 then lines[0] else lines[0] + "\n" + Join(lines[1..])
  }

  /** Each line with the prefix in front. */
  function Prefixed(prefix: string, lines: seq<string>): (r: seq<string>)
    ensures |r| == |lines| && forall i :: 0 <= i < |lines| ==> r[i] == prefix + lines[i]
  {
    seq(|lines|, i requires 0 <= i < |lines| => prefix + lines[i])
  }

  // ---------------------------------------------------------------- facts about the pieces

  lemma {:induction false} ReplaceNewlinesAppend(a: string, b: string, r: string)
    ensures ReplaceNewlines(a + b, r) == ReplaceNewlines(a, r) + ReplaceNewlines(b, r)
    decreases |a|
  {
    if a == [] {
      assert a + b == b;
    } else {
      assert (a + b)[0] == a[0] && (a + b)[1..] == a[1..] + b;
      ReplaceNewlinesAppend(a[1..], b, r);
    }
  }

  lemma {:induction false} NoNewlineUnchanged(s: string, r: string)
    requires '\n' !in s
    ensures ReplaceNewlines(s, r) == s
    decreases |s|
  {
    if s != [] {
      assert s[0] != '\n' && s == [s[0]] + s[1..];
      NoNewlineUnchanged(s[1..], r);
    }
  }

  lemma {:induction false} NoNewlineCount(s: string)
    requires '\n' !in s
    ensures Newlines(s) == 0
    decreases |s|
  {
    if s != [] {
      assert s[0] != '\n' && s == [s[0]] + s[1..];
      NoNewlineCount(s[1..]);
    }
  }

  lemma {:induction false} ReplaceNewlinesLength(s: string, r: string)
    ensures |ReplaceNewlines(s, r)| == |s| - Newlines(s) + |r| * Newlines(s)
    decreases |s|
  {
    if s != [] {
      ReplaceNewlinesLength(s[1..], r);
      var n := Newlines(s[1..]);
      if s[0] == '\n' {
        assert |r| * (n + 1) == |r| * n + |r|;
      }
    }
  }

  lemma {:induction false} ReplaceNewlinesIdentity(s: string)
    ensures ReplaceNewlines(s, "\n") == s
    decreases |s|
  {
    if s != [] {
      ReplaceNewlinesIdentity(s[1..]);
      if s[0] == '\n' {
        assert [s[0]] == "\n";
      }
      assert s == [s[0]] + s[1..];
    }
  }

  /** A newline-free start joins the first line. */
  lemma {:induction false} LinesAfterPlainText(q: string, t: string)
    requires '\n' !in q
    ensures Lines(q + t) == [q + Lines(t)[0]] + Lines(t)[1..]
    decreases |q|
  {
    if q != [] {
      var q' := q[1..];
      assert (q + t)[0] == q[0] && (q + t)[1..] == q' + t;
      assert q[0] != '\n';
      LinesAfterPlainText(q', t);
      assert q + Lines(t)[0] == [q[0]] + (q' + Lines(t)[0]);
    } else {
      var L := Lines(t);
      assert q + t == t && q + L[0] == L[0];
      assert L == [L[0]] + L[1..];
    }
  }

  lemma {:induction false} JoinLines(s: string)
    ensures Join(Lines(s)) == s
    decreases |s|
  {
    if s != [] {
      var rest := Lines(s[1..]);
      JoinLines(s[1..]);
      if s[0] == '\n' {
        assert Lines(s) == [""] + rest;
        assert Join(Lines(s)) == "" + "\n" + Join(rest);
        assert s == "\n" + s[1..];
      } else {
        var first := [s[0]] + rest[0];
        assert Lines(s) == [first] + rest[1..];
        if |rest| == 1 {
          assert Join(Lines(s)) == first;
          assert Join(rest) == rest[0];
        } else {
          assert ([first] + rest[1..])[1..] == rest[1..];
          assert Join(Lines(s)) == first + "\n" + Join(rest[1..]);
          assert Join(rest) == rest[0] + "\n" + Join(rest[1..]);
        }
        assert s == [s[0]] + s[1..];
      }
    }
  }

  /** The core of the line property, for a text already preceded by the
      newline-free q. */
  lemma {:induction false} LinesOfReplaced(q: string, s: string, prefix: string)
    requires '\n' !in q && '\n' !in prefix
    ensures var L := Lines(s);
            Lines(q + ReplaceNewlines(s, "\n" + prefix)) == [q + L[0]] + Prefixed(prefix, L[1..])
    decreases |s|
  {
    var r := "\n" + prefix;
    if s == [] {
      LinesAfterPlainText(q, "");
      assert q + "" == q;
    } else {
      var rest := s[1..];
      var R := ReplaceNewlines(rest, r);
      var L' := Lines(rest);
      if s[0] == '\n' {
        var t := "\n" + (prefix + R);
        assert q + ReplaceNewlines(s, r) == q + t;
        LinesAfterPlainText(q, t);
        LinesAfterNewline(prefix + R);
        LinesOfReplaced(prefix, rest, prefix);
        PrefixedCons(prefix, L');
        assert Lines(s) == [""] + L';
        assert Lines(s)[1..] == L' && q + "" == q;
      } else {
        var q' := q + [s[0]];
        assert q + ReplaceNewlines(s, r) == q' + R;
        LinesOfReplaced(q', rest, prefix);
        assert Lines(s) == [[s[0]] + L'[0]] + L'[1..];
        assert q + Lines(s)[0] == q' + L'[0];
        assert Lines(s)[1..] == L'[1..];
      }
    }
  }

  /** A leading newline starts a new, empty first line. */
  lemma LinesAfterNewline(x: string)
    ensures Lines("\n" + x) == [""] + Lines(x)
  {
    assert ("\n" + x)[0] == '\n' && ("\n" + x)[1..] == x;
  }

  // ---------------------------------------------------------------- the properties of indent

  /** The result starts with the prefix. */
  lemma IndentStartsWithPrefix(input: string, prefix: string)
    requires '\n' !in prefix
    ensures |Indent(input, prefix)| >= |prefix| && Indent(input, prefix)[..|prefix|] == prefix
  {
  }

  /** Splitting the result into lines gives the input's lines, each with the
      prefix in front, in order. */
  lemma IndentLines(input: string, prefix: string)
    requires '\n' !in prefix
    ensures Lines(Indent(input, prefix)) == Prefixed(prefix, Lines(input))
  {
    LinesOfReplaced(prefix, input, prefix);
    PrefixedCons(prefix, Lines(input));
  }

  lemma PrefixedCons(prefix: string, lines: seq<string>)
    requires |lines| >= 1
    ensures Prefixed(prefix, lines) == [prefix + lines[0]] + Prefixed(prefix, lines[1..])
  {
  }

  /** Nothing else changes: the result is the input's lines, each
      prefixed, joined by newlines. */
  lemma IndentIsPrefixedLines(input: string, prefix: string)
    requires '\n' !in prefix
    ensures Indent(input, prefix) == Join(Prefixed(prefix, Lines(input)))
  {
    IndentLines(input, prefix);
    JoinLines(Indent(input, prefix));
  }

  /** The result is longer by one prefix per line. */
  lemma IndentLength(input: string, prefix: string)
    requires '\n' !in prefix
    ensures |Indent(input, prefix)| == |input| + |prefix| * (Newlines(input) + 1)
  {
    ReplaceNewlinesLength(input, "\n" + prefix);
    var n, p := Newlines(input), |prefix|;
    Distributes(p, n);
    Distributes(n, p);
  }

  lemma Distributes(a: nat, b: nat)
    ensures (a + 1) * b == a * b + b && b * (a + 1) == b * a + b
  {
  }

  /** An empty prefix changes nothing. */
  lemma IndentEmptyPrefix(input: string)
    ensures Indent(input, "") == input
  {
    assert "" + input == input && "\n" + "" == "\n";
    ReplaceNewlinesIdentity(input);
  }

  /** A single line is just prefixed. */
  lemma IndentSingleLine(input: string, prefix: string)
    requires '\n' !in prefix && '\n' !in input
    ensures Indent(input, prefix) == prefix + input
    ensures Newlines(Indent(input, prefix)) == 0
  {
    assert '\n' !in prefix + input;
    NoNewlineUnchanged(prefix + input, "\n" + prefix);
    NoNewlineCount(prefix + input);
  }

  /** The usage text of the generated documentation: two spaces. */
  lemma IndentUsageSample()
    ensures Indent("a\nb", "  ") == "  a\n  b"
  {
    var r := "\n  ";
    assert "\n" + "  " == r;
    assert "  " + "a\nb" == "  a" + "\nb";
    assert Indent("a\nb", "  ") == ReplaceNewlines("  a" + "\nb", r);
    ReplaceNewlinesAppend("  a", "\nb", r);
    NoNewlineUnchanged("  a", r);
    NoNewlineUnchanged("b", r);
    assert "\nb"[0] == '\n' && "\nb"[1..] == "b";
    assert ReplaceNewlines("\nb", r) == r + ReplaceNewlines("b", r);
    assert "  a" + (r + "b") == "  a\n  b";
  }
}
