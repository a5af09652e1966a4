/** Escaping untrusted text for the notice's Markdown and resolving the escapes for the other renderers
    (app/consumer/notice_markdown.py:22, 198-205; app/reporting/convert.py:18, 27-29). */
module MarkdownEscapes {
  import opened Common

  /** The characters the escaper puts a backslash before. */
  predicate Escaped(c: char) { c == '\\' || Structural(c) }

  /** Those among them that could open a link, raw HTML or a code span. */
  predicate Structural(c: char) { c == '`' || c == '[' || c == ']' || c == '<' || c == '>' }

  /** The characters the resolver accepts behind a backslash, emphasis marks included. */
  predicate Resolvable(c: char) { Escaped(c) || c == '*' || c == '_' }

  function Escape(text: string): string {
    if text == [] then []
    else
      var last := text[|text| - 1];
      Escape(text[..|text| - 1]) + (if Escaped(last) then ['\\', last] else [last])
  }

  function Unescape(text: string): string {
    if text == [] then []
    else if text[0] == '\\' && |text| > 1 && Resolvable(text[1]) then [text[1]] + Unescape(text[2..])
    else [text[0]] + Unescape(text[1..])
  }

  /** Whether the scan ends on a backslash that escapes nothing yet. */
  predicate Dangling(text: string) {
    if text == [] then false
    else if text[0] == '\\' && |text| > 1 && Resolvable(text[1]) then Dangling(text[2..])
    else if |text| == 1 then text[0] == '\\'
    else Dangling(text[1..])
  }

  /** Without a dangling backslash the two texts are resolved apart. */
  lemma {:induction false} UnescapeConcat(a: string, b: string)
    requires !Dangling(a)
    ensures Unescape(a + b) == Unescape(a) + Unescape(b)
    ensures Dangling(a + b) == Dangling(b)
    decreases |a|
  {
    if a == [] {
      assert a + b == b;
    } else if a[0] == '\\' && |a| > 1 && Resolvable(a[1]) {
      UnescapeConcat(a[2..], b);
      assert (a + b)[2..] == a[2..] + b;
    } else if |a| == 1 {
      assert (a + b)[1..] == b && a[1..] == [];
    } else {
      UnescapeConcat(a[1..], b);
      assert (a + b)[1..] == a[1..] + b;
    }
  }

  lemma OneEscape(c: char)
    ensures var piece := if Escaped(c) then ['\\', c] else [c];
            Unescape(piece) == [c] && !Dangling(piece)
  {
    if Escaped(c) {
      assert ['\\', c][2..] == [];
    } else {
      assert [c][1..] == [];
    }
  }

  /** Resolving undoes escaping. */
  lemma {:induction false} UnescapeEscape(text: string)
    ensures Unescape(Escape(text)) == text && !Dangling(Escape(text))
  {
    if text != [] {
      var n := |text| - 1;
      UnescapeEscape(text[..n]);
      OneEscape(text[n]);
      UnescapeConcat(Escape(text[..n]), if Escaped(text[n]) then ['\\', text[n]] else [text[n]]);
      assert text == text[..n] + [text[n]];
    }
  }

  /** An escaped text is resolved to itself wherever it stands behind text without a dangling backslash. */
  lemma EscapedInside(before: string, text: string, after: string)
    requires !Dangling(before)
    ensures Unescape(before + Escape(text) + after) == Unescape(before) + text + Unescape(after)
  {
    UnescapeEscape(text);
    UnescapeConcat(before, Escape(text));
    UnescapeConcat(before + Escape(text), after);
  }

  // ----- behind a dangling backslash

  /** The backslashes a text starts with. */
  function Run(text: string): nat {
    if text == [] || text[0] != '\\' then 0 else 1 + Run(text[1..])
  }

  /** Whether a resolvable character other than a backslash follows them. */
  predicate RunOpens(text: string) { Run(text) < |text| && text[Run(text)] != '\\' && Resolvable(text[Run(text)]) }

  lemma {:induction false} RunLength(text: string)
    ensures Run(text) <= |text| && (Run(text) < |text| ==> text[Run(text)] != '\\')
  {
    if text != [] && text[0] == '\\' {
      RunLength(text[1..]);
    }
  }

  /** One more backslash in front stays or disappears, by the parity of the run behind it. */
  lemma {:induction false} BackslashInFront(text: string)
    ensures Unescape(['\\'] + text) == (if RunOpens(text) == (Run(text) % 2 == 1) then ['\\'] else []) + Unescape(text)
  {
    var whole := ['\\'] + text;
    assert whole[1..] == text;
    RunLength(text);
    if text == [] {
    } else if text[0] != '\\' {
      assert whole[2..] == text[1..];
    } else {
      BackslashInFront(text[1..]);
      assert whole[2..] == text[1..] && text == ['\\'] + text[1..];
    }
  }

  /** A text with a dangling backslash is one without it and the backslash. */
  lemma {:induction false} DanglingSplits(text: string)
    requires Dangling(text)
    ensures text != [] && text[|text| - 1] == '\\' && !Dangling(text[..|text| - 1])
    ensures Unescape(text) == Unescape(text[..|text| - 1]) + ['\\']
    decreases |text|
  {
    if text[0] == '\\' && |text| > 1 && Resolvable(text[1]) {
      DanglingSplits(text[2..]);
      assert text[2..][..|text| - 3] == text[..|text| - 1][2..];
    } else if |text| == 1 {
      assert text[..0] == [] && text[1..] == [];
    } else {
      DanglingSplits(text[1..]);
      assert text[1..][..|text| - 2] == text[..|text| - 1][1..];
      DanglingTail(text);
    }
  }

  lemma DanglingTail(text: string)
    requires |text| >= 2 && !(text[0] == '\\' && Resolvable(text[1])) && !Dangling(text[..|text| - 1][1..])
    requires text[1..][|text| - 2] == '\\'
    ensures !Dangling(text[..|text| - 1])
    ensures Unescape(text[..|text| - 1]) == [text[0]] + Unescape(text[..|text| - 1][1..])
  {
    var head := text[..|text| - 1];
    if |text| == 2 {
      assert text[1] == '\\';
    }
  }

  /** Exactly when two texts are resolved apart. */
  lemma UnescapeDistributesExactly(a: string, b: string)
    ensures Unescape(a + b) == Unescape(a) + Unescape(b) <==> !Dangling(a) || RunOpens(b) == (Run(b) % 2 == 1)
  {
    if !Dangling(a) {
      UnescapeConcat(a, b);
    } else {
      DanglingSplits(a);
      var head := a[..|a| - 1];
      assert a + b == head + (['\\'] + b);
      UnescapeConcat(head, ['\\'] + b);
      BackslashInFront(b);
      Regroup(Unescape(head), ['\\'], Unescape(b));
      assert |Unescape(a) + Unescape(b)| == |Unescape(head)| + 1 + |Unescape(b)|;
    }
  }

  // ----- no structural character is left bare

  /** The backslashes just before a position. */
  function RunBefore(text: string, i: nat): nat
    requires i <= |text|
  {
    if i == 0 || text[i - 1] != '\\' then 0 else 1 + RunBefore(text, i - 1)
  }

  lemma {:induction false} RunBeforePrefix(a: string, b: string, i: nat)
    requires i <= |a|
    ensures RunBefore(a + b, i) == RunBefore(a, i)
    decreases i
  {
    if i > 0 && a[i - 1] == '\\' {
      RunBeforePrefix(a, b, i - 1);
    }
  }

  /** Every structural character of an escaped text has an odd run of backslashes before it. */
  lemma {:induction false} StructuralIsEscaped(text: string, i: nat)
    requires i < |Escape(text)| && Structural(Escape(text)[i])
    ensures RunBefore(Escape(text), i) % 2 == 1
  {
    var n := |text| - 1;
    var earlier := Escape(text[..n]);
    var piece := if Escaped(text[n]) then ['\\', text[n]] else [text[n]];
    RunBeforePrefix(earlier, piece, if i < |earlier| then i else |earlier|);
    if i < |earlier| {
      StructuralIsEscaped(text[..n], i);
    } else {
      EvenAtTheEnd(text[..n]);
      assert i == |earlier| + 1 && Escape(text)[i - 1] == '\\';
    }
  }

  lemma {:induction false} EvenAtTheEnd(text: string)
    ensures RunBefore(Escape(text), |Escape(text)|) % 2 == 0
  {
    if text != [] {
      var n := |text| - 1;
      var earlier := Escape(text[..n]);
      if text[n] == '\\' {
        EvenAtTheEnd(text[..n]);
        RunBeforePrefix(earlier, ['\\', '\\'], |earlier|);
        assert RunBefore(Escape(text), |earlier| + 1) == 1 + RunBefore(Escape(text), |earlier|);
      }
    }
  }
}
