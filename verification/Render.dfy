/** Rendering one memory: text cleaned and clamped, the body quoted line by line, under a title line. */
module Render {
  import opened Seqs
  import opened Text
  import opened Models

  // Limits and toggles, and the two regular expressions: which lines forge structure, and the rewriting
  // of a line that marks instructions.
  datatype Look = Look(
    maxTitle: int, maxBody: int, neutralize: bool, fence: string,
    forges: string -> bool,
    marked: string -> string)

  // The control characters that are dropped: all of ASCII but tab, line feed and carriage return.
  predicate IsControl(c: char) {
    c <= '\U{08}' || c == '\U{0B}' || c == '\U{0C}' || '\U{0E}' <= c <= '\U{1F}' || c == '\U{7F}'
  }

  function Printable(): char -> bool {
    (c: char) => !IsControl(c)
  }

  // The characters at which str.splitlines ends a line.
  predicate IsLineBreak(c: char) {
    || '\n' <= c <= '\r' || '\U{1C}' <= c <= '\U{1E}' || c == '\U{85}' || '\U{2028}' <= c <= '\U{2029}'
  }

  // str.splitlines, with line what was read of the current line; "\r\n" ends one line.
  function SplitLines(s: string, line: string): seq<string>
    decreases |s|
  {
    if s == "" then (if line == "" then [] else [line])
    else if |s| > 1 && s[0] == '\r' && s[1] == '\n' then [line] + SplitLines(s[2..], "")
    else if IsLineBreak(s[0]) then [line] + SplitLines(s[1..], "")
    else SplitLines(s[1..], line + [s[0]])
  }

  // str.lstrip("#")
  function WithoutHashes(s: string): string {
    if s != "" && s[0] == '#' then WithoutHashes(s[1..]) else s
  }

  function CleanLine(look: Look): string -> string {
    (raw: string) =>
      var line := TrimRight(raw);
      var inert := if look.forges(line) then "[memory-data] " + TrimLeft(WithoutHashes(line)) else line;
      if look.neutralize then look.marked(inert) else inert
  }

  function Sanitize(look: Look, text: string): string {
    Strip(Join("\n", Map(CleanLine(look), SplitLines(Filter(Printable(), text), ""))))
  }

  method SanitizeLines(look: Look, text: string) returns (clean: string)
    ensures clean == Sanitize(look, text)
  {
    var rawLines := SplitLines(Filter(Printable(), text), "");
    var lines: seq<string> := [];
    for i := 0 to |rawLines|
      invariant lines == Map(CleanLine(look), rawLines[..i])
    {
      var line := TrimRight(rawLines[i]);
      if look.forges(line) {
        line := "[memory-data] " + TrimLeft(WithoutHashes(line));
      }
      if look.neutralize {
        line := look.marked(line);
      }
      MapLast(CleanLine(look), rawLines[..i + 1]);
      assert rawLines[..i + 1][..i] == rawLines[..i];
      lines := lines + [line];
    }
    assert rawLines[..|rawLines|] == rawLines;
    clean := Strip(Join("\n", lines));
  }

  // A text over the limit loses its end to an ellipsis.
  function Clamp(text: string, limit: int): string {
    if |text| <= limit then text
    else TrimRight(text[..if limit >= 1 then limit - 1 else 0]) + "\U{2026}"
  }

  // text.replace("\n", "\n" + fence)
  function Quoted(fence: string, text: string): string {
    if text == "" then ""
    else Quoted(fence, text[..|text| - 1]) + if text[|text| - 1] == '\n' then "\n" + fence else [text[|text| - 1]]
  }

  function TagPart(tags: seq<string>): string {
    if tags == [] then "" else " [" + Join(", ", tags) + "]"
  }

  function StatusPart(status: string): string {
    if status == "active" then "" else " (status: " + status + ")"
  }

  function SourcePart(source: Source): string {
    " (source: " + source.kind + ":" + source.ref + ")"
  }

  function Title(look: Look, m: Record): string {
    Clamp(Sanitize(look, m.title), look.maxTitle)
  }

  function Body(look: Look, m: Record): string {
    Clamp(Sanitize(look, m.body), look.maxBody)
  }

  function TitleLine(look: Look, m: Record): string {
    "- **" + Title(look, m) + "**" + TagPart(m.tags) + StatusPart(m.status) + ":"
  }

  function RenderMemory(look: Look, m: Record): string {
    TitleLine(look, m) + "\n" + look.fence + Quoted(look.fence, Body(look, m)) + SourcePart(m.source)
  }

  function Renderer(look: Look): Record -> string {
    (m: Record) => RenderMemory(look, m)
  }

  // ----- What a block looks like -----

  // A block ends in the closing parenthesis of its source, whatever the memory holds.
  lemma RenderedEnds(look: Look, m: Record)
    ensures var block := RenderMemory(look, m);
            block != "" && block[|block| - 1] == ')'
  {
    assert SourcePart(m.source)[|SourcePart(m.source)| - 1] == ')';
  }

  // A limit of at least one character is kept, and a text within it is left alone.
  lemma ClampKeepsLimit(text: string, limit: int)
    ensures limit >= 1 ==> |Clamp(text, limit)| <= limit
    ensures |text| <= limit ==> Clamp(text, limit) == text
    ensures |Clamp(text, limit)| <= |text| || Clamp(text, limit) == "\U{2026}"
  {
  }

  // The lines of a text, split at '\n' only.
  function LinesOf(text: string): (lines: seq<string>)
    ensures lines != []
  {
    if text == "" then [""]
    else
      var lines, c := LinesOf(text[..|text| - 1]), text[|text| - 1];
      if c == '\n' then lines + [""] else lines[..|lines| - 1] + [lines[|lines| - 1] + [c]]
  }

  function Fenced(fence: string): string -> string {
    (line: string) => fence + line
  }

  lemma JoinLast(lines: seq<string>, last: string)
    requires lines != []
    ensures Join("\n", lines + [last]) == Join("\n", lines) + "\n" + last
  {
    assert (lines + [last])[..|lines|] == lines;
  }

  lemma JoinExtended(init: seq<string>, last: string, c: char)
    ensures Join("\n", init + [last + [c]]) == Join("\n", init + [last]) + [c]
  {
    if init != [] {
      JoinLast(init, last);
      JoinLast(init, last + [c]);
      Assoc(Join("\n", init) + "\n", last, [c]);
    }
  }

  lemma Assoc(a: string, b: string, c: string)
    ensures a + (b + c) == (a + b) + c
  {
  }

  lemma FencedOneMore(fence: string, init: seq<string>, last: string)
    ensures Map(Fenced(fence), init + [last]) == Map(Fenced(fence), init) + [fence + last]
  {
  }

  // The body is quoted: what follows the title line is the lines of the body, each behind the fence.
  lemma {:induction false} EveryLineIsFenced(fence: string, text: string)
    ensures fence + Quoted(fence, text) == Join("\n", Map(Fenced(fence), LinesOf(text)))
  {
    if text == "" {
      FencedOneMore(fence, [], "");
    } else {
      var before, c := text[..|text| - 1], text[|text| - 1];
      EveryLineIsFenced(fence, before);
      OneMoreChar(fence, before, c);
    }
  }

  lemma NextChar(fence: string, before: string, c: char)
    ensures var lines := LinesOf(before);
            LinesOf(before + [c]) ==
            if c == '\n' then lines + [""] else lines[..|lines| - 1] + [lines[|lines| - 1] + [c]]
    ensures Quoted(fence, before + [c]) == Quoted(fence, before) + if c == '\n' then "\n" + fence else [c]
  {
    assert (before + [c])[..|before|] == before;
  }

  lemma OneMoreChar(fence: string, before: string, c: char)
    requires fence + Quoted(fence, before) == Join("\n", Map(Fenced(fence), LinesOf(before)))
    ensures fence + Quoted(fence, before + [c]) == Join("\n", Map(Fenced(fence), LinesOf(before + [c])))
  {
    NextChar(fence, before, c);
    var lines := LinesOf(before);
    if c == '\n' {
      NewLine(fence, lines);
      Assoc(fence, Quoted(fence, before), "\n" + fence);
    } else {
      SameLine(fence, lines, c);
      Assoc(fence, Quoted(fence, before), [c]);
    }
  }

  lemma NewLine(fence: string, lines: seq<string>)
    requires lines != []
    ensures Join("\n", Map(Fenced(fence), lines + [""])) == Join("\n", Map(Fenced(fence), lines)) + ("\n" + fence)
  {
    FencedOneMore(fence, lines, "");
    assert fence + "" == fence;
    JoinLast(Map(Fenced(fence), lines), fence);
    Assoc(Join("\n", Map(Fenced(fence), lines)), "\n", fence);
  }

  lemma SameLine(fence: string, lines: seq<string>, c: char)
    requires lines != []
    ensures Join("\n", Map(Fenced(fence), lines[..|lines| - 1] + [lines[|lines| - 1] + [c]])) ==
            Join("\n", Map(Fenced(fence), lines)) + [c]
  {
    var init, last := lines[..|lines| - 1], lines[|lines| - 1];
    assert lines == init + [last];
    FencedOneMore(fence, init, last);
    FencedOneMore(fence, init, last + [c]);
    Assoc(fence, last, [c]);
    JoinExtended(Map(Fenced(fence), init), fence + last, c);
  }

  // ----- No other line breaks -----

  predicate Plain(c: char) {
    !IsControl(c) && !IsLineBreak(c)
  }

  predicate OneLine(s: string) {
    forall i :: 0 <= i < |s| ==> Plain(s[i])
  }

  // Marking instructions brings in no control character and no line break.
  ghost predicate MarksInline(look: Look) {
    forall s :: OneLine(s) ==> OneLine(look.marked(s))
  }

  lemma {:induction false} LinesAreSplit(s: string, line: string)
    requires (forall i :: 0 <= i < |s| ==> !IsControl(s[i])) && OneLine(line)
    ensures forall i :: 0 <= i < |SplitLines(s, line)| ==> OneLine(SplitLines(s, line)[i])
    decreases |s|
  {
    if s != "" {
      if |s| > 1 && s[0] == '\r' && s[1] == '\n' {
        LinesAreSplit(s[2..], "");
      } else if IsLineBreak(s[0]) {
        LinesAreSplit(s[1..], "");
      } else {
        LinesAreSplit(s[1..], line + [s[0]]);
      }
    }
  }

  lemma {:induction false} WithoutHashesIsSuffix(s: string)
    ensures OneLine(s) ==> OneLine(WithoutHashes(s))
  {
    if s != "" && s[0] == '#' {
      WithoutHashesIsSuffix(s[1..]);
    }
  }

  lemma {:induction false} TrimLeftIsSuffix(s: string)
    ensures OneLine(s) ==> OneLine(TrimLeft(s))
  {
    if s != "" && IsSpace(s[0]) {
      TrimLeftIsSuffix(s[1..]);
    }
  }

  lemma CleanLineIsOneLine(look: Look, raw: string)
    requires MarksInline(look) && OneLine(raw)
    ensures OneLine(CleanLine(look)(raw))
  {
    var line := TrimRight(raw);
    assert OneLine(line);
    WithoutHashesIsSuffix(line);
    TrimLeftIsSuffix(WithoutHashes(line));
    assert OneLine("[memory-data] ");
  }

  predicate Lines(s: string) {
    forall i :: 0 <= i < |s| ==> s[i] == '\n' || Plain(s[i])
  }

  lemma {:induction false} JoinedLines(lines: seq<string>)
    requires forall i :: 0 <= i < |lines| ==> OneLine(lines[i])
    ensures Lines(Join("\n", lines))
  {
    if |lines| > 1 {
      JoinedLines(lines[..|lines| - 1]);
      assert OneLine(lines[|lines| - 1]);
    } else if |lines| == 1 {
      assert OneLine(lines[0]);
    }
  }

  lemma {:induction false} StrippedLines(s: string)
    requires Lines(s)
    ensures Lines(Strip(s))
  {
    if s != "" && IsSpace(s[0]) {
      StrippedLines(s[1..]);
    }
  }

  // Cleaned text holds no control character, and no line break but '\n'.
  lemma SanitizedLines(look: Look, text: string)
    requires MarksInline(look)
    ensures Lines(Sanitize(look, text))
  {
    var printable := Filter(Printable(), text);
    forall i | 0 <= i < |printable| ensures !IsControl(printable[i]) {
      assert printable[i] in printable;
    }
    LinesAreSplit(printable, "");
    var lines := SplitLines(printable, "");
    forall i | 0 <= i < |lines| ensures OneLine(Map(CleanLine(look), lines)[i]) {
      CleanLineIsOneLine(look, lines[i]);
    }
    JoinedLines(Map(CleanLine(look), lines));
    StrippedLines(Join("\n", Map(CleanLine(look), lines)));
  }

  // A memory's body stands behind the fence line by line, however it is written: what follows the title
  // line is its lines behind the fence, none of them holding a line break of any kind.
  lemma BodyIsFenced(look: Look, m: Record)
    requires MarksInline(look)
    ensures var lines := LinesOf(Body(look, m));
            && RenderMemory(look, m) ==
               TitleLine(look, m) + "\n" + Join("\n", Map(Fenced(look.fence), lines)) + SourcePart(m.source)
            && forall i :: 0 <= i < |lines| ==> OneLine(lines[i])
  {
    var body := Body(look, m);
    EveryLineIsFenced(look.fence, body);
    Assoc(TitleLine(look, m) + "\n", look.fence, Quoted(look.fence, body));
    SanitizedLines(look, m.body);
    ClampedLines(Sanitize(look, m.body), look.maxBody);
    SplitAtNewlines(body);
  }

  lemma ClampedLines(text: string, limit: int)
    requires Lines(text)
    ensures Lines(Clamp(text, limit))
  {
  }

  lemma {:induction false} SplitAtNewlines(text: string)
    requires Lines(text)
    ensures forall i :: 0 <= i < |LinesOf(text)| ==> OneLine(LinesOf(text)[i])
  {
    if text != "" {
      SplitAtNewlines(text[..|text| - 1]);
    }
  }
}
