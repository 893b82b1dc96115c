/** What cleaning leaves of a text, what it does to a line that forges structure, and how a block and a graph read. */
module RenderLaws {
  import opened Seqs
  import opened Text
  import opened Models
  import opened Render

  // ----- Splitting undoes joining -----

  lemma {:induction false} SplitFirstLine(line: string, read: string, rest: string)
    requires OneLine(line)
    ensures SplitLines(line + "\n" + rest, read) == [read + line] + SplitLines(rest, "")
    decreases |line|
  {
    var text := line + "\n" + rest;
    if line == "" {
      assert text[0] == '\n' && text[1..] == rest && read + line == read;
    } else {
      assert text[0] == line[0] && text[1..] == line[1..] + "\n" + rest;
      assert Plain(line[0]);
      SplitFirstLine(line[1..], read + [line[0]], rest);
      assert read + [line[0]] + line[1..] == read + line;
    }
  }

  lemma {:induction false} SplitLastLine(line: string, read: string)
    requires OneLine(line) && read + line != ""
    ensures SplitLines(line, read) == [read + line]
    decreases |line|
  {
    if line == "" {
      assert read + line == read;
    } else {
      assert Plain(line[0]);
      SplitLastLine(line[1..], read + [line[0]]);
      assert read + [line[0]] + line[1..] == read + line;
    }
  }

  lemma {:induction false} JoinFront(lines: seq<string>)
    requires |lines| > 1
    ensures Join("\n", lines) == lines[0] + "\n" + Join("\n", lines[1..])
  {
    var n := |lines| - 1;
    assert lines == lines[..n] + [lines[n]];
    JoinLast(lines[..n], lines[n]);
    if n == 1 {
      assert lines[1..] == [lines[1]] && lines[..1] == [lines[0]];
    } else {
      JoinFront(lines[..n]);
      assert lines[..n][1..] == lines[1..][..n - 1] && lines[1..] == lines[1..][..n - 1] + [lines[n]];
      JoinLast(lines[1..][..n - 1], lines[n]);
      assert lines[..n][0] == lines[0];
    }
  }

  // Lines that are joined with newlines come apart again, whatever they hold but line breaks and control characters.
  lemma {:induction false} SplitUndoesJoin(lines: seq<string>)
    requires lines != [] && lines[|lines| - 1] != "" && forall i :: 0 <= i < |lines| ==> OneLine(lines[i])
    ensures SplitLines(Join("\n", lines), "") == lines
  {
    if |lines| == 1 {
      assert Join("\n", lines) == lines[0];
      SplitLastLine(lines[0], "");
      assert "" + lines[0] == lines[0];
    } else {
      JoinFront(lines);
      SplitFirstLine(lines[0], "", Join("\n", lines[1..]));
      SplitUndoesJoin(lines[1..]);
      assert "" + lines[0] == lines[0];
    }
  }

  // ----- Cleaning -----

  lemma {:induction false} PrintableJoin(lines: seq<string>)
    requires forall i :: 0 <= i < |lines| ==> OneLine(lines[i])
    ensures forall k :: 0 <= k < |Join("\n", lines)| ==> !IsControl(Join("\n", lines)[k])
  {
    JoinedLines(lines);
  }

  // A text is cleaned line by line, and stripped at the end.
  lemma CleanedLineByLine(look: Look, lines: seq<string>)
    requires lines != [] && lines[|lines| - 1] != "" && forall i :: 0 <= i < |lines| ==> OneLine(lines[i])
    ensures Sanitize(look, Join("\n", lines)) == Strip(Join("\n", Map(CleanLine(look), lines)))
  {
    var text := Join("\n", lines);
    PrintableJoin(lines);
    FilterAll(Printable(), text);
    SplitUndoesJoin(lines);
  }

  lemma {:induction false} HashesRemoved(s: string) returns (n: nat)
    ensures n <= |s| && (forall i :: 0 <= i < n ==> s[i] == '#') && WithoutHashes(s) == s[n..]
    ensures n < |s| ==> s[n] != '#'
  {
    n := 0;
    if s != "" && s[0] == '#' {
      n := HashesRemoved(s[1..]);
      assert s[1..][n..] == s[n + 1..];
      assert forall i :: 0 < i < n + 1 ==> s[i] == s[1..][i - 1];
      n := n + 1;
    }
  }

  // A line loses the white space at its end. One that forges structure also loses the hashes it begins with and
  // the white space behind them, and stands behind a label; nothing else is lost.
  lemma CleanedLine(look: Look, raw: string) returns (hashes: nat, content: nat, end: nat)
    requires !look.neutralize
    ensures hashes <= content <= end <= |raw| && AllSpace(raw[end..]) && (end > 0 ==> !IsSpace(raw[end - 1]))
    ensures (forall i :: 0 <= i < hashes ==> raw[i] == '#') && AllSpace(raw[hashes..content])
    ensures if look.forges(raw[..end]) then CleanLine(look)(raw) == "[memory-data] " + raw[content..end]
            else CleanLine(look)(raw) == raw[..end]
    ensures content < end ==> !IsSpace(raw[content])
  {
    end := TrimRightRemoves(raw);
    var line := raw[..end];
    hashes := HashesRemoved(line);
    var spaces := TrimLeftRemoves(line[hashes..]);
    content := hashes + spaces;
    assert raw[hashes..content] == line[hashes..][..spaces];
    assert raw[content..end] == line[hashes..][spaces..];
    assert forall i :: 0 <= i < hashes ==> raw[i] == line[i];
  }

  // Marking comes after that, whether a line forges structure or not.
  lemma MarkedLast(look: Look, raw: string)
    requires look.neutralize
    ensures CleanLine(look)(raw) == look.marked(CleanLine(look.(neutralize := false))(raw))
  {
  }

  // A text without control characters, forged lines, marked instructions and white space at the ends of lines is kept.
  lemma PlainTextIsKept(look: Look, lines: seq<string>)
    requires lines != [] && lines[|lines| - 1] != "" && Trimmed(Join("\n", lines))
    requires forall i :: 0 <= i < |lines| ==>
               && OneLine(lines[i]) && !look.forges(lines[i]) && (look.neutralize ==> look.marked(lines[i]) == lines[i])
               && (lines[i] == "" || !IsSpace(lines[i][|lines[i]| - 1]))
    ensures Sanitize(look, Join("\n", lines)) == Join("\n", lines)
  {
    forall i | 0 <= i < |lines| ensures CleanLine(look)(lines[i]) == lines[i] {
      assert TrimRight(lines[i]) == lines[i];
    }
    assert Map(CleanLine(look), lines) == lines;
    CleanedLineByLine(look, lines);
  }

  // ----- Examples -----

  // How the parts around title and body read.
  lemma PartsRead()
    ensures TagPart([]) == "" && TagPart(["x", "y"]) == " [x, y]"
    ensures StatusPart("active") == "" && StatusPart("old") == " (status: old)"
    ensures SourcePart(Source("doc", "r", None)) == " (source: doc:r)"
  {
    assert Join(", ", ["x", "y"][..1]) == "x";
    assert Join(", ", ["x", "y"]) == "x, y";
  }

  // A text that is too long keeps what stands before the limit, less white space, and an ellipsis.
  lemma ClampedText(text: string, limit: nat)
    requires limit >= 1 && |text| > limit
    ensures exists k :: 0 <= k < limit && Clamp(text, limit) == text[..k] + "\U{2026}" && AllSpace(text[k..limit - 1])
                        && (k > 0 ==> !IsSpace(text[k - 1]))
  {
    var k := TrimRightRemoves(text[..limit - 1]);
    assert text[..limit - 1][..k] == text[..k] && text[..limit - 1][k..] == text[k..limit - 1];
  }
}
