/** Token estimates, the greedy filling of a budget with lines, and what the estimate of the joined block can reach. */
module Budget {
  import opened Seqs
  import opened Text

  const CHARS_PER_TOKEN := 4

  function EstimateTokens(text: string): nat {
    if text == "" then 0
    else
      var tokens := (|text| + CHARS_PER_TOKEN - 1) / CHARS_PER_TOKEN;
      if tokens > 1 then tokens else 1
  }

  function Length(line: string): int {
    |line|
  }

  function Tokens(line: string): int {
    EstimateTokens(line)
  }

  // What rounding up adds to a line: 0 to 3 characters.
  function Slack(line: string): int {
    CHARS_PER_TOKEN * EstimateTokens(line) - |line|
  }

  // ----- Filling the budget -----

  // The characters the lines may take together, and the tokens that the header and the lines may.
  datatype Limits = Limits(chars: Option<int>, tokens: Option<int>)

  predicate Within(limit: Option<int>, used: int) {
    limit.Some? ==> used <= limit.value
  }

  // Whether the first k lines fit both limits together.
  function Fitting(limits: Limits, header: string, lines: seq<string>): nat -> bool {
    (k: nat) =>
      && k <= |lines|
      && Within(limits.chars, Sum(Length, lines[..k]))
      && Within(limits.tokens, EstimateTokens(header) + Sum(Tokens, lines[..k]))
  }

  // The largest k up to n that fits, or 0.
  function Longest(fits: nat -> bool, n: nat): (k: nat)
    ensures k <= n && (k == 0 || fits(k))
    ensures forall j :: k < j <= n ==> !fits(j)
  {
    if n == 0 || fits(n) then n else Longest(fits, n - 1)
  }

  lemma LongestIs(fits: nat -> bool, n: nat, k: nat)
    requires k <= n && (k == 0 || fits(k))
    requires forall j :: k < j <= n ==> !fits(j)
    ensures Longest(fits, n) == k
  {
  }

  function RenderedCount(limits: Limits, header: string, lines: seq<string>): (k: nat)
    ensures k <= |lines|
  {
    Longest(Fitting(limits, header, lines), |lines|)
  }

  // The header and the longest prefix of the lines that fits.
  function Rendered(limits: Limits, header: string, lines: seq<string>): seq<string> {
    [header] + lines[..RenderedCount(limits, header, lines)]
  }

  function Block(lines: seq<string>): string {
    Strip(Join("\n", lines))
  }

  lemma SumNext(f: string -> int, lines: seq<string>, i: nat)
    requires i < |lines|
    ensures Sum(f, lines[..i + 1]) == Sum(f, lines[..i]) + f(lines[i])
  {
    assert lines[..i + 1][..i] == lines[..i];
  }

  lemma {:induction false} SumsGrow(lines: seq<string>, i: nat, j: nat)
    requires i <= j <= |lines|
    ensures Sum(Length, lines[..i]) <= Sum(Length, lines[..j])
    ensures Sum(Tokens, lines[..i]) <= Sum(Tokens, lines[..j])
    decreases j - i
  {
    if i < j {
      SumsGrow(lines, i, j - 1);
      SumNext(Length, lines, j - 1);
      SumNext(Tokens, lines, j - 1);
    }
  }

  // Once a line does not fit, no longer prefix does.
  lemma NothingLongerFits(limits: Limits, header: string, lines: seq<string>, i: nat)
    requires i < |lines| && !Fitting(limits, header, lines)(i + 1)
    requires i == 0 || Fitting(limits, header, lines)(i)
    ensures RenderedCount(limits, header, lines) == i
  {
    var fits := Fitting(limits, header, lines);
    forall j: nat | i < j <= |lines| ensures !fits(j) {
      SumsGrow(lines, i + 1, j);
    }
    LongestIs(fits, |lines|, i);
  }

  // The first i lines are rendered.
  ghost predicate Rendering(limits: Limits, header: string, lines: seq<string>, i: nat) {
    i <= |lines| && (i == 0 || Fitting(limits, header, lines)(i))
  }

  // The next line is taken when it fits what is left of both limits; otherwise the rendering is complete.
  lemma RenderOne(limits: Limits, header: string, lines: seq<string>, i: nat)
    requires Rendering(limits, header, lines, i) && i < |lines|
    ensures Sum(Length, lines[..i + 1]) == Sum(Length, lines[..i]) + |lines[i]|
    ensures Sum(Tokens, lines[..i + 1]) == Sum(Tokens, lines[..i]) + EstimateTokens(lines[i])
    ensures if && Within(limits.chars, Sum(Length, lines[..i]) + |lines[i]|)
               && Within(limits.tokens, EstimateTokens(header) + Sum(Tokens, lines[..i]) + EstimateTokens(lines[i]))
            then Rendering(limits, header, lines, i + 1)
            else RenderedCount(limits, header, lines) == i
  {
    SumNext(Length, lines, i);
    SumNext(Tokens, lines, i);
    if !Fitting(limits, header, lines)(i + 1) {
      NothingLongerFits(limits, header, lines, i);
    }
  }

  // Line i fits what the lines before it leave of both limits.
  predicate FitsNext(limits: Limits, header: string, lines: seq<string>, i: nat)
    requires i < |lines|
  {
    && Within(limits.chars, Sum(Length, lines[..i]) + |lines[i]|)
    && Within(limits.tokens, EstimateTokens(header) + Sum(Tokens, lines[..i]) + EstimateTokens(lines[i]))
  }

  // Lines are rendered up to the first that does not fit.
  lemma RenderedUpTo(limits: Limits, header: string, lines: seq<string>)
    ensures var k := RenderedCount(limits, header, lines);
            && (forall i :: 0 <= i < k ==> FitsNext(limits, header, lines, i))
            && (k < |lines| ==> !FitsNext(limits, header, lines, k))
  {
    var k := RenderedCount(limits, header, lines);
    forall i | 0 <= i < k ensures FitsNext(limits, header, lines, i) {
      SumNext(Length, lines, i);
      SumNext(Tokens, lines, i);
      SumsGrow(lines, i + 1, k);
    }
    if k < |lines| {
      SumNext(Length, lines, k);
      SumNext(Tokens, lines, k);
      assert !Fitting(limits, header, lines)(k + 1);
    }
  }

  // Once every line is rendered the rendering is complete.
  lemma RenderedAll(limits: Limits, header: string, lines: seq<string>)
    requires Rendering(limits, header, lines, |lines|)
    ensures RenderedCount(limits, header, lines) == |lines|
  {
    LongestIs(Fitting(limits, header, lines), |lines|, |lines|);
  }

  // ----- The length of the block -----

  lemma EstimateAtMost(text: string, n: int)
    ensures EstimateTokens(text) <= n <==> |text| <= CHARS_PER_TOKEN * n
  {
  }

  lemma {:induction false} JoinLength(lines: seq<string>)
    requires lines != []
    ensures |Join("\n", lines)| == Sum(Length, lines) + |lines| - 1
  {
    if |lines| > 1 {
      JoinLength(lines[..|lines| - 1]);
    }
  }

  lemma {:induction false} SlackTotal(lines: seq<string>)
    ensures Sum(Slack, lines) == CHARS_PER_TOKEN * Sum(Tokens, lines) - Sum(Length, lines)
    ensures 0 <= Sum(Slack, lines)
  {
    if lines != [] {
      SlackTotal(lines[..|lines| - 1]);
      EstimateAtMost(lines[|lines| - 1], EstimateTokens(lines[|lines| - 1]));
    }
  }

  lemma {:induction false} TokensNonNegative(lines: seq<string>)
    ensures Sum(Tokens, lines) >= 0
  {
    if lines != [] {
      TokensNonNegative(lines[..|lines| - 1]);
    }
  }

  // The white space a text ends in.
  function Trailing(s: string): (n: nat)
    ensures n <= |s|
  {
    if s != "" && IsSpace(s[|s| - 1]) then 1 + Trailing(s[..|s| - 1]) else 0
  }

  // The white space that lines end in once they are joined: a last line of nothing else also brings the
  // newline before it, and what the lines before it end in.
  function TailSpace(lines: seq<string>): nat {
    if lines == [] then 0
    else
      var init, last := lines[..|lines| - 1], lines[|lines| - 1];
      if init != [] && Trailing(last) == |last| then |last| + 1 + TailSpace(init) else Trailing(last)
  }

  lemma {:induction false} TrailingAppend(a: string, b: string)
    ensures Trailing(a + b) == if Trailing(b) == |b| then |b| + Trailing(a) else Trailing(b)
  {
    if b == "" {
      assert a + b == a;
    } else {
      assert (a + b)[..|a + b| - 1] == a + b[..|b| - 1];
      TrailingAppend(a, b[..|b| - 1]);
    }
  }

  lemma {:induction false} TrailingOfJoin(lines: seq<string>)
    ensures Trailing(Join("\n", lines)) == TailSpace(lines)
  {
    if |lines| > 1 {
      var init, last := lines[..|lines| - 1], lines[|lines| - 1];
      TrailingOfJoin(init);
      TrailingAppend(Join("\n", init), "\n");
      TrailingAppend(Join("\n", init) + "\n", last);
      assert Trailing("\n") == 1 + Trailing("");
    }
  }

  lemma {:induction false} TrimmedLength(s: string)
    ensures |TrimRight(s)| == |s| - Trailing(s)
  {
    if s != "" && IsSpace(s[|s| - 1]) {
      TrimmedLength(s[..|s| - 1]);
    }
  }

  // The text neither begins with white space nor is empty.
  predicate Begins(s: string) {
    s != "" && !IsSpace(s[0])
  }

  predicate Ends(s: string) {
    s != "" && !IsSpace(s[|s| - 1])
  }

  lemma {:induction false} JoinBegins(lines: seq<string>)
    requires lines != [] && Begins(lines[0])
    ensures Begins(Join("\n", lines))
  {
    if |lines| > 1 {
      JoinBegins(lines[..|lines| - 1]);
    }
  }

  // The block is as long as the lines and the newlines between them, without the white space at the end.
  lemma BlockLength(lines: seq<string>)
    requires lines != [] && Begins(lines[0])
    ensures |Block(lines)| == Sum(Length, lines) + |lines| - 1 - TailSpace(lines)
  {
    JoinBegins(lines);
    JoinLength(lines);
    TrailingOfJoin(lines);
    TrimmedLength(Join("\n", lines));
  }

  lemma NoTailSpace(lines: seq<string>)
    requires lines != [] && Ends(lines[|lines| - 1])
    ensures TailSpace(lines) == 0
  {
  }

  lemma HeaderFirst(f: string -> int, header: string, lines: seq<string>)
    ensures Sum(f, [header] + lines) == f(header) + Sum(f, lines)
  {
    SumAppend(f, [header], lines);
    assert [header][..0] == [];
  }

  // ----- The estimate of the block -----

  // Joining k + 1 lines adds k newlines that no line's estimate counted: at most k / 4 tokens, rounded up.
  lemma BlockEstimate(lines: seq<string>)
    requires lines != []
    ensures EstimateTokens(Block(lines)) <= Sum(Tokens, lines) + (|lines| - 1 + 3) / 4
  {
    JoinLength(lines);
    SlackTotal(lines);
    EstimateAtMost(Block(lines), Sum(Tokens, lines) + (|lines| - 1 + 3) / 4);
  }

  // Whether the lines and k newlines fit into the characters of a token budget.
  predicate NewlinesFit(budget: int, lines: seq<string>, k: int) {
    k + Sum(Length, lines) <= CHARS_PER_TOKEN * budget
  }

  // The estimate stays within a token budget exactly when the characters of the lines and the newlines that
  // remain between them do.
  lemma WithinBudgetIff(lines: seq<string>, k: int, budget: int)
    requires lines != [] && Begins(lines[0]) && k == |lines| - 1 - TailSpace(lines)
    ensures EstimateTokens(Block(lines)) <= budget <==> NewlinesFit(budget, lines, k)
  {
    BlockLength(lines);
    FitsByLength(Block(lines), lines, k, budget);
  }

  lemma FitsByLength(text: string, lines: seq<string>, k: int, budget: int)
    requires |text| == Sum(Length, lines) + k
    ensures EstimateTokens(text) <= budget <==> NewlinesFit(budget, lines, k)
  {
    EstimateAtMost(text, budget);
  }

  // The rendered lines keep both limits, the newlines aside.
  lemma RenderedBounds(limits: Limits, header: string, lines: seq<string>)
    requires Within(limits.tokens, EstimateTokens(header))
    ensures var rendered, k := Rendered(limits, header, lines), RenderedCount(limits, header, lines);
            && |rendered| == k + 1 && Within(limits.tokens, Sum(Tokens, rendered))
            && (limits.chars.Some? ==>
                  Sum(Length, rendered) <= |header| + if limits.chars.value >= 0 then limits.chars.value else 0)
  {
    var k := RenderedCount(limits, header, lines);
    HeaderFirst(Length, header, lines[..k]);
    HeaderFirst(Tokens, header, lines[..k]);
  }

  // The true bound: with k lines rendered the estimate exceeds the token limit by at most k / 4, rounded up.
  lemma RenderedEstimate(limits: Limits, header: string, lines: seq<string>)
    requires limits.tokens.Some? && Within(limits.tokens, EstimateTokens(header))
    ensures EstimateTokens(Block(Rendered(limits, header, lines))) <=
            limits.tokens.value + (RenderedCount(limits, header, lines) + 3) / 4
  {
    RenderedBounds(limits, header, lines);
    BlockEstimate(Rendered(limits, header, lines));
  }

  // The estimate of what is rendered stays within the token limit exactly when the newlines fit: k of
  // them, for k rendered lines, less the white space at the end.
  lemma RenderedWithinIff(limits: Limits, header: string, lines: seq<string>)
    requires limits.tokens.Some? && Begins(header)
    ensures var rendered, k := Rendered(limits, header, lines), RenderedCount(limits, header, lines);
            EstimateTokens(Block(rendered)) <= limits.tokens.value <==>
            NewlinesFit(limits.tokens.value, rendered, k - TailSpace(rendered))
  {
    var rendered, k := Rendered(limits, header, lines), RenderedCount(limits, header, lines);
    WithinBudgetIff(rendered, k - TailSpace(rendered), limits.tokens.value);
  }

  // Where the last rendered line ends in something else than white space, exactly when all k newlines fit.
  lemma PlainWithinIff(limits: Limits, header: string, lines: seq<string>)
    requires limits.tokens.Some? && Begins(header) && Within(limits.tokens, EstimateTokens(header))
    requires var k := RenderedCount(limits, header, lines); k > 0 ==> Ends(lines[k - 1])
    ensures var rendered, k := Rendered(limits, header, lines), RenderedCount(limits, header, lines);
            EstimateTokens(Block(rendered)) <= limits.tokens.value <==>
            NewlinesFit(limits.tokens.value, rendered, k)
  {
    var rendered, k := Rendered(limits, header, lines), RenderedCount(limits, header, lines);
    RenderedWithinIff(limits, header, lines);
    if k == 0 {
      RenderedBounds(limits, header, lines);
      SlackTotal(rendered);
    } else {
      NoTailSpace(rendered);
    }
  }

  // ----- The bound is attained -----

  // A text whose estimate needs no rounding.
  predicate Whole(s: string) {
    |s| % CHARS_PER_TOKEN == 0
  }

  lemma {:induction false} WholeLines(lines: seq<string>)
    requires forall i :: 0 <= i < |lines| ==> Whole(lines[i])
    ensures Sum(Slack, lines) == 0
  {
    if lines != [] {
      WholeLines(lines[..|lines| - 1]);
      assert Whole(lines[|lines| - 1]);
    }
  }

  lemma WholeBlock(lines: seq<string>)
    requires lines != [] && Begins(lines[0]) && Ends(lines[|lines| - 1])
    requires forall i :: 0 <= i < |lines| ==> Whole(lines[i])
    ensures EstimateTokens(Block(lines)) == Sum(Tokens, lines) + (|lines| - 1 + 3) / 4
  {
    WholeLines(lines);
    SlackTotal(lines);
    NoTailSpace(lines);
    BlockLength(lines);
    EstimateIs(Block(lines), Sum(Tokens, lines), |lines| - 1);
  }

  lemma PrefixFits(limits: Limits, header: string, lines: seq<string>, prefix: seq<string>, k: nat)
    requires k <= |lines| && prefix == lines[..k]
    requires Within(limits.tokens, EstimateTokens(header) + Sum(Tokens, prefix))
    requires Within(limits.chars, Sum(Length, prefix))
    ensures Fitting(limits, header, lines)(k)
  {
  }

  lemma AllRendered(limits: Limits, header: string, lines: seq<string>)
    requires Within(limits.tokens, EstimateTokens(header) + Sum(Tokens, lines))
    requires Within(limits.chars, Sum(Length, lines))
    ensures Rendered(limits, header, lines) == [header] + lines
    ensures RenderedCount(limits, header, lines) == |lines|
  {
    FullPrefix(lines, |lines|);
    PrefixFits(limits, header, lines, lines, |lines|);
    RenderedAll(limits, header, lines);
  }

  // When nothing is rounded and the limit is what header and lines take, all lines are rendered and the
  // estimate exceeds the limit by exactly a quarter of their number, rounded up.
  lemma WholeLinesExceed(limits: Limits, header: string, lines: seq<string>)
    requires Begins(header) && Whole(header) && lines != [] && Ends(lines[|lines| - 1])
    requires forall i :: 0 <= i < |lines| ==> Whole(lines[i])
    requires limits.tokens.Some? && limits.tokens.value == EstimateTokens(header) + Sum(Tokens, lines)
    requires Within(limits.chars, Sum(Length, lines))
    ensures RenderedCount(limits, header, lines) == |lines|
    ensures EstimateTokens(Block(Rendered(limits, header, lines))) == limits.tokens.value + (|lines| + 3) / 4
  {
    AllRendered(limits, header, lines);
    HeaderFirst(Tokens, header, lines);
    WholeBlock([header] + lines);
  }

  lemma EstimateIs(text: string, n: int, k: nat)
    requires |text| == CHARS_PER_TOKEN * n + k
    ensures EstimateTokens(text) == n + (k + 3) / 4
  {
    EstimateAtMost(text, n + (k + 3) / 4);
    EstimateAtMost(text, n + (k + 3) / 4 - 1);
  }
}
