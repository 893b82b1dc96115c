/** Python's string operations as the store uses them: strip, lower, substring search, joining and ordering. */
module Text {

  // The characters that str.strip removes.
  predicate IsSpace(c: char) {
    || c == ' ' || '\t' <= c <= '\r' || '\U{1C}' <= c <= '\U{1F}' || c == '\U{85}' || c == '\U{A0}'
    || c == '\U{1680}' || '\U{2000}' <= c <= '\U{200A}' || '\U{2028}' <= c <= '\U{2029}'
    || c == '\U{202F}' || c == '\U{205F}' || c == '\U{3000}'
  }

  predicate Trimmed(s: string) {
    s == "" || (!IsSpace(s[0]) && !IsSpace(s[|s| - 1]))
  }

  function TrimLeft(s: string): (r: string)
    ensures r == "" || !IsSpace(r[0])
    ensures Trimmed(s) ==> r == s
    ensures |r| <= |s|
  {
    if s != "" && IsSpace(s[0]) then TrimLeft(s[1..]) else s
  }

  function TrimRight(s: string): (r: string)
    ensures r <= s
    ensures r == "" || !IsSpace(r[|r| - 1])
    ensures Trimmed(s) ==> r == s
  {
    if s != "" && IsSpace(s[|s| - 1]) then TrimRight(s[..|s| - 1]) else s
  }

  function Strip(s: string): (r: string)
    ensures Trimmed(r)
    ensures Trimmed(s) ==> r == s
    ensures |r| <= |s|
  {
    TrimRight(TrimLeft(s))
  }

  // Nothing is left after stripping, which is decided on the left already.
  predicate Blank(s: string) {
    TrimLeft(s) == ""
  }

  lemma BlankIffStripped(s: string)
    ensures Blank(s) <==> Strip(s) == ""
  {
    var t := TrimLeft(s);
    if t != "" {
      KeepsFirst(t);
    }
  }

  lemma {:induction false} KeepsFirst(s: string)
    requires s != "" && !IsSpace(s[0])
    ensures TrimRight(s) != ""
  {
    if IsSpace(s[|s| - 1]) {
      KeepsFirst(s[..|s| - 1]);
    }
  }

  // str.lower on ASCII letters; other characters are left alone.
  function LowerChar(c: char): char {
    if 'A' <= c <= 'Z' then (c as int + 32) as char else c
  }

  function Lower(s: string): (r: string)
    ensures |r| == |s|
    ensures forall i :: 0 <= i < |s| ==> r[i] == LowerChar(s[i])
  {
    seq(|s|, i requires 0 <= i < |s| => LowerChar(s[i]))
  }

  // needle in text
  predicate Contains(text: string, needle: string) {
    needle <= text || (text != "" && Contains(text[1..], needle))
  }

  // sep.join(parts)
  function Join(sep: string, parts: seq<string>): string {
    if parts == [] then ""
    else if |parts| == 1 then parts[0]
    else Join(sep, parts[..|parts| - 1]) + sep + parts[|parts| - 1]
  }

  predicate IsWordChar(c: char) {
    'a' <= c <= 'z' || '0' <= c <= '9'
  }

  // The maximal runs of [a-z0-9] in s, with word the run being read.
  function Words(s: string, word: string): seq<string> {
    if s == "" then (if word == "" then [] else [word])
    else if IsWordChar(s[0]) then Words(s[1..], word + [s[0]])
    else (if word == "" then [] else [word]) + Words(s[1..], "")
  }

  function Tokenize(s: string): seq<string> {
    Words(Lower(s), "")
  }

  // The order of Python strings: by first differing character, then by length.
  predicate AtMost(a: string, b: string) {
    a == "" || (b != "" && (a[0] < b[0] || (a[0] == b[0] && AtMost(a[1..], b[1..]))))
  }

  predicate Less(a: string, b: string) {
    AtMost(a, b) && a != b
  }

  lemma {:induction false} AtMostTotal(a: string, b: string)
    ensures AtMost(a, b) || AtMost(b, a)
  {
    if a != "" && b != "" && a[0] == b[0] {
      AtMostTotal(a[1..], b[1..]);
    }
  }

  lemma {:induction false} AtMostAntisymmetric(a: string, b: string)
    requires AtMost(a, b) && AtMost(b, a)
    ensures a == b
  {
    if a != "" && b != "" {
      AtMostAntisymmetric(a[1..], b[1..]);
      assert a == [a[0]] + a[1..] && b == [b[0]] + b[1..];
    }
  }

  lemma {:induction false} AtMostTransitive(a: string, b: string, c: string)
    requires AtMost(a, b) && AtMost(b, c)
    ensures AtMost(a, c)
  {
    if a != "" && b != "" && c != "" && a[0] == b[0] == c[0] {
      AtMostTransitive(a[1..], b[1..], c[1..]);
    }
  }

  lemma OrderLaws()
    ensures forall a, b :: AtMost(a, b) || AtMost(b, a)
    ensures forall a, b :: AtMost(a, b) && AtMost(b, a) ==> a == b
    ensures forall a, b, c :: AtMost(a, b) && AtMost(b, c) ==> AtMost(a, c)
  {
    forall a, b ensures AtMost(a, b) || AtMost(b, a) { AtMostTotal(a, b); }
    forall a, b | AtMost(a, b) && AtMost(b, a) ensures a == b { AtMostAntisymmetric(a, b); }
    forall a, b, c | AtMost(a, b) && AtMost(b, c) ensures AtMost(a, c) { AtMostTransitive(a, b, c); }
  }

  lemma LowerIdempotent(s: string)
    ensures Lower(Lower(s)) == Lower(s)
    ensures Trimmed(s) ==> Trimmed(Lower(s))
  {
  }

  // The normal form of a tag: tag.strip().lower().
  function Key(tag: string): (r: string)
    ensures Trimmed(r) && Lower(r) == r
  {
    LowerIdempotent(Strip(tag));
    Lower(Strip(tag))
  }

  // ----- What these operations mean -----

  predicate AllSpace(s: string) {
    forall i :: 0 <= i < |s| ==> IsSpace(s[i])
  }

  lemma {:induction false} TrimLeftRemoves(s: string) returns (n: nat)
    ensures n <= |s| && AllSpace(s[..n]) && TrimLeft(s) == s[n..]
  {
    n := 0;
    if s != "" && IsSpace(s[0]) {
      var k := TrimLeftRemoves(s[1..]);
      n := k + 1;
      assert s[1..][k..] == s[n..];
      assert forall i :: 0 < i < n ==> s[i] == s[1..][..k][i - 1];
    }
  }

  lemma {:induction false} TrimRightRemoves(s: string) returns (n: nat)
    ensures n <= |s| && AllSpace(s[n..]) && TrimRight(s) == s[..n]
  {
    n := |s|;
    if s != "" && IsSpace(s[|s| - 1]) {
      var init := s[..|s| - 1];
      n := TrimRightRemoves(init);
      assert init[..n] == s[..n];
      assert forall i :: 0 <= i < |init| - n ==> s[n..][i] == init[n..][i];
    }
  }

  // Stripping removes white space at both ends and nothing else, and leaves none there.
  lemma StripRemoves(s: string)
    ensures Trimmed(Strip(s)) && exists a, b :: AllSpace(a) && AllSpace(b) && s == a + Strip(s) + b
  {
    var n := TrimLeftRemoves(s);
    var k := TrimRightRemoves(TrimLeft(s));
    assert s == s[..n] + Strip(s) + TrimLeft(s)[k..];
  }

  // A needle is contained if it stands somewhere in the text.
  lemma {:induction false} ContainsIff(text: string, needle: string)
    ensures Contains(text, needle) <==> exists i :: 0 <= i <= |text| && needle <= text[i..]
  {
    if needle <= text {
      assert text[0..] == text;
    } else if text != "" {
      ContainsIff(text[1..], needle);
      if i :| 0 <= i <= |text| - 1 && needle <= text[1..][i..] {
        assert text[1..][i..] == text[i + 1..];
      }
      if i :| 0 <= i <= |text| && needle <= text[i..] {
        assert i != 0 by { assert text[0..] == text; }
        assert text[1..][i - 1..] == text[i..];
      }
    }
  }

  // Strings are ordered by their first difference, or by length if one starts the other.
  ghost predicate Precedes(a: string, b: string) {
    a <= b || exists i :: 0 <= i < |a| && i < |b| && a[..i] == b[..i] && a[i] < b[i]
  }

  lemma {:induction false} AtMostIff(a: string, b: string)
    ensures AtMost(a, b) <==> Precedes(a, b)
  {
    if a != "" && b != "" {
      AtMostIff(a[1..], b[1..]);
      if a[0] == b[0] {
        TailPrecedes(a, b);
      } else if a[0] < b[0] {
        assert a[..0] == b[..0];
      } else {
        FirstDiffers(a, b);
      }
    }
  }

  lemma FirstDiffers(a: string, b: string)
    requires a != "" && b != "" && a[0] > b[0]
    ensures !Precedes(a, b)
  {
    forall i | 0 <= i < |a| && i < |b| && a[..i] == b[..i] ensures i == 0 {
      if i > 0 {
        SameFirst(a, b, i);
      }
    }
  }

  lemma SameFirst(a: string, b: string, i: nat)
    requires 0 < i <= |a| && i <= |b| && a[..i] == b[..i]
    ensures a[0] == b[0]
  {
    assert a[..i][0] == b[..i][0];
  }

  lemma TailPrecedes(a: string, b: string)
    requires a != "" && b != "" && a[0] == b[0]
    ensures Precedes(a, b) <==> Precedes(a[1..], b[1..])
  {
    assert a <= b <==> a[1..] <= b[1..] by {
      assert a == [a[0]] + a[1..] && b == [b[0]] + b[1..];
    }
    if i :| 0 <= i < |a| && i < |b| && a[..i] == b[..i] && a[i] < b[i] {
      TailPrefix(a, i);
      TailPrefix(b, i);
      assert a[1..][i - 1] < b[1..][i - 1];
    }
    if i :| 0 <= i < |a| - 1 && i < |b| - 1 && a[1..][..i] == b[1..][..i] && a[1..][i] < b[1..][i] {
      TailPrefix(a, i + 1);
      TailPrefix(b, i + 1);
      assert a[i + 1] < b[i + 1];
    }
  }

  lemma TailPrefix(s: string, i: nat)
    requires 0 < i <= |s|
    ensures s[..i] == [s[0]] + s[1..][..i - 1] && s[1..][..i - 1] == s[..i][1..]
  {
  }

  // The tokens of a text are the words of what stands before and behind any character that is in no word,
  // and a run of word characters is one word.
  lemma {:induction false} WordsSplit(a: string, c: char, b: string, word: string)
    requires !IsWordChar(c)
    ensures Words(a + [c] + b, word) == Words(a, word) + Words(b, "")
  {
    if a == "" {
      assert a + [c] + b == [c] + b;
    } else {
      assert (a + [c] + b)[1..] == a[1..] + [c] + b;
      WordsSplit(a[1..], c, b, if IsWordChar(a[0]) then word + [a[0]] else "");
    }
  }

  lemma {:induction false} RunIsOneWord(run: string, word: string)
    requires (forall i :: 0 <= i < |run| ==> IsWordChar(run[i])) && word + run != ""
    ensures Words(run, word) == [word + run]
  {
    if run == "" {
      assert word + run == word;
    } else {
      RunIsOneWord(run[1..], word + [run[0]]);
      assert word + [run[0]] + run[1..] == word + run;
    }
  }

  // Upper-case letters of ASCII become lower-case ones, digits and lower-case letters stay.
  lemma LowerLetters()
    ensures Lower("ABCXYZabcxyz019 -_") == "abcxyzabcxyz019 -_"
  {
  }
}
