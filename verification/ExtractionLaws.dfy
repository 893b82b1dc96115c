/** Which relations a text yields, edge by edge and in order, with nothing lost, and what counts as a name. */
module ExtractionLaws {
  import opened Seqs
  import opened Text
  import opened Extraction
  import opened Firsts

  // ----- What a clause yields -----

  // Rule r is the first that matches the clause, with capture c.
  ghost predicate Decides(lang: Language, clause: string, r: nat, c: Capture) {
    && r < |lang.rules| && lang.matches(lang.rules[r], clause) == Some(c)
    && forall q :: 0 <= q < r ==> lang.matches(lang.rules[q], clause) == None
  }

  // The clause names a subject: what its first match captures is a usable name once it is canonical.
  ghost predicate Gives(lang: Language, clause: string, name: string) {
    exists r: nat, c :: Decides(lang, clause, r, c) && c.subject.Some? && c.subject.value != ""
                        && name == lang.canonical(c.subject.value) && Usable(lang, name)
  }

  // Clause j is the nearest before i that names a subject.
  ghost predicate NearestBefore(lang: Language, clauses: seq<string>, i: nat, j: nat, name: string) {
    && j < i <= |clauses| && Gives(lang, clauses[j], name)
    && forall k, other :: j < k < i ==> !Gives(lang, clauses[k], other)
  }

  // The subject of an edge of clause i: the captured one, if the rule captures subjects; otherwise the nearest
  // earlier one; and if there is none, a sensitive write is its own subject.
  ghost predicate IsSubject(lang: Language, clauses: seq<string>, i: nat, rel: string, c: Capture, subject: string, target: string)
    requires i <= |clauses|
  {
    if c.subject.Some? then c.subject.value != "" && subject == lang.canonical(c.subject.value) && Usable(lang, subject)
    else || (exists j: nat :: NearestBefore(lang, clauses, i, j, subject))
         || (&& rel == "sensitive_write" && subject == target
             && forall j, name :: 0 <= j < i ==> !Gives(lang, clauses[j], name))
  }

  // What object k of clause i yields.
  ghost predicate Yields(lang: Language, clauses: seq<string>, i: nat, k: nat, e: Edge) {
    i < |clauses| &&
    exists r: nat, c :: Decides(lang, clauses[i], r, c) && YieldsOf(lang, clauses, i, lang.rules[r], c, k, e)
  }

  ghost predicate YieldsOf(lang: Language, clauses: seq<string>, i: nat, rule: Rule, c: Capture, k: nat, e: Edge)
    requires i <= |clauses|
  {
    && k < |lang.objects(c.target)| && e.target == lang.canonical(lang.objects(c.target)[k]) && Usable(lang, e.target)
    && IsSubject(lang, clauses, i, rule.rel, c, e.subject, e.target)
    && (e.subject != e.target || rule.rel == "sensitive_write")
    && e.rel == rule.rel && e.rule == rule.name
    && e.subjectKind == InferKind(lang, e.subject, Subject, rule.rel)
    && e.targetKind == InferKind(lang, e.target, Object, rule.rel)
  }

  // ----- The first match and the nearest subject -----

  lemma {:induction false} FirstMatchDecides(lang: Language, clause: string, q: nat, r: nat, c: Capture)
    requires q <= r && Decides(lang, clause, r, c)
    ensures FirstMatch(lang, clause, q) == Matched(lang.rules[r], c)
    decreases r - q
  {
    if q < r {
      FirstMatchDecides(lang, clause, q + 1, r, c);
    }
  }

  lemma {:induction false} MatchDecides(lang: Language, clause: string, q: nat) returns (r: nat)
    requires q <= |lang.rules| && FirstMatch(lang, clause, q).Matched?
    requires forall p :: 0 <= p < q ==> lang.matches(lang.rules[p], clause) == None
    ensures Decides(lang, clause, r, FirstMatch(lang, clause, q).capture)
    ensures lang.rules[r] == FirstMatch(lang, clause, q).rule
    decreases |lang.rules| - q
  {
    r := q;
    if lang.matches(lang.rules[q], clause).None? {
      r := MatchDecides(lang, clause, q + 1);
    }
  }

  lemma GivesIs(lang: Language, clause: string, name: string)
    ensures Gives(lang, clause, name) <==> Named(lang, clause) == Some(name)
  {
    if r: nat, c :| Decides(lang, clause, r, c) && c.subject.Some? && c.subject.value != ""
                    && name == lang.canonical(c.subject.value) && Usable(lang, name) {
      FirstMatchDecides(lang, clause, 0, r, c);
    }
    if Named(lang, clause) == Some(name) {
      var r := MatchDecides(lang, clause, 0);
    }
  }

  lemma NearestIs(lang: Language, clauses: seq<string>, i: nat, name: string)
    requires i <= |clauses|
    ensures (exists j: nat :: NearestBefore(lang, clauses, i, j, name)) <==> Carried(lang, clauses, i) == Some(name)
    ensures (forall j, other :: 0 <= j < i ==> !Gives(lang, clauses[j], other)) <==> Carried(lang, clauses, i) == None
  {
    CarriedIsNearest(lang, clauses, i);
    forall clause, other ensures Gives(lang, clause, other) <==> Named(lang, clause) == Some(other) {
      GivesIs(lang, clause, other);
    }
    var carried := Carried(lang, clauses, i);
    if carried.Some? {
      var j: nat :| j < i && Named(lang, clauses[j]) == carried
                    && forall k: nat :: j < k < i ==> Named(lang, clauses[k]).None?;
      assert NearestBefore(lang, clauses, i, j, carried.value);
      if j': nat :| NearestBefore(lang, clauses, i, j', name) {
        OneNearest(lang, clauses, i, j, carried.value, j', name);
      }
    }
  }

  lemma OneNearest(lang: Language, clauses: seq<string>, i: nat, j: nat, name: string, j': nat, name': string)
    requires NearestBefore(lang, clauses, i, j, name) && NearestBefore(lang, clauses, i, j', name')
    ensures j == j' && name == name'
  {
    GivesIs(lang, clauses[j], name);
    GivesIs(lang, clauses[j'], name');
  }

  // ----- Edge by edge -----

  function EdgeAt(lang: Language, clauses: seq<string>, i: nat, k: nat): seq<Edge>
    requires i < |clauses|
  {
    var m := FirstMatch(lang, clauses[i], 0);
    if m.NoMatch? || k >= |lang.objects(m.capture.target)| then []
    else EdgeFor(lang, m.rule, BindingOf(lang, clauses[i], Carried(lang, clauses, i)), lang.objects(m.capture.target)[k])
  }

  lemma SubjectIs(lang: Language, clauses: seq<string>, i: nat, r: nat, c: Capture, subject: string, target: string)
    requires i < |clauses| && Decides(lang, clauses[i], r, c)
    ensures var b := BindingOf(lang, clauses[i], Carried(lang, clauses, i));
            IsSubject(lang, clauses, i, lang.rules[r].rel, c, subject, target) <==>
              !b.Unbound? && subject == if b.Bound? then b.name else target
  {
    FirstMatchDecides(lang, clauses[i], 0, r, c);
    NearestIs(lang, clauses, i, subject);
  }

  lemma YieldsIs(lang: Language, clauses: seq<string>, i: nat, k: nat, e: Edge)
    requires i < |clauses|
    ensures Yields(lang, clauses, i, k, e) <==> EdgeAt(lang, clauses, i, k) == [e]
    ensures EdgeAt(lang, clauses, i, k) != [] ==> Yields(lang, clauses, i, k, EdgeAt(lang, clauses, i, k)[0])
    ensures |EdgeAt(lang, clauses, i, k)| <= 1
  {
    if FirstMatch(lang, clauses[i], 0).Matched? {
      var r := MatchDecides(lang, clauses[i], 0);
      YieldsByRule(lang, clauses, i, k, e, r);
      if EdgeAt(lang, clauses, i, k) != [] {
        YieldsByRule(lang, clauses, i, k, EdgeAt(lang, clauses, i, k)[0], r);
      }
    }
    if r: nat, c :| Decides(lang, clauses[i], r, c) && YieldsOf(lang, clauses, i, lang.rules[r], c, k, e) {
      FirstMatchDecides(lang, clauses[i], 0, r, c);
      OneEdge(lang, clauses, i, k, e, r, c);
    }
  }

  lemma OneEdge(lang: Language, clauses: seq<string>, i: nat, k: nat, e: Edge, r: nat, c: Capture)
    requires i < |clauses| && Decides(lang, clauses[i], r, c)
    ensures YieldsOf(lang, clauses, i, lang.rules[r], c, k, e) <==> EdgeAt(lang, clauses, i, k) == [e]
  {
    FirstMatchDecides(lang, clauses[i], 0, r, c);
    SubjectIs(lang, clauses, i, r, c, e.subject, e.target);
  }

  lemma YieldsByRule(lang: Language, clauses: seq<string>, i: nat, k: nat, e: Edge, r: nat)
    requires i < |clauses| && FirstMatch(lang, clauses[i], 0).Matched?
    requires Decides(lang, clauses[i], r, FirstMatch(lang, clauses[i], 0).capture)
    ensures EdgeAt(lang, clauses, i, k) == [e] ==> Yields(lang, clauses, i, k, e)
  {
    OneEdge(lang, clauses, i, k, e, r, FirstMatch(lang, clauses[i], 0).capture);
  }

  // The edges are those that these positions yield, one each and in this order.
  ghost predicate Placed(lang: Language, clauses: seq<string>, n: nat, at: seq<(nat, nat)>, edges: seq<Edge>) {
    && n <= |clauses| && |at| == |edges| && InOrder(at)
    && (forall x :: 0 <= x < |at| ==> at[x].0 < n && EdgeAt(lang, clauses, at[x].0, at[x].1) == [edges[x]])
    && forall i: nat, k: nat :: i < n && EdgeAt(lang, clauses, i, k) != [] ==> (i, k) in at
  }

  // The objects that yield an edge each.
  ghost predicate Kept(lang: Language, rule: Rule, b: Binding, raws: seq<string>, ks: seq<nat>, edges: seq<Edge>) {
    && |ks| == |edges|
    && (forall x, y :: 0 <= x < y < |ks| ==> ks[x] < ks[y])
    && (forall x :: 0 <= x < |ks| ==> ks[x] < |raws| && EdgeFor(lang, rule, b, raws[ks[x]]) == [edges[x]])
    && forall k: nat :: k < |raws| && EdgeFor(lang, rule, b, raws[k]) != [] ==> k in ks
  }

  lemma OneMoreObject(lang: Language, rule: Rule, b: Binding, raws: seq<string>, ks: seq<nat>, edges: seq<Edge>)
    requires raws != [] && Kept(lang, rule, b, raws[..|raws| - 1], ks, edges)
    ensures EdgeFor(lang, rule, b, raws[|raws| - 1]) == [] ==> Kept(lang, rule, b, raws, ks, edges)
    ensures EdgeFor(lang, rule, b, raws[|raws| - 1]) != [] ==>
              Kept(lang, rule, b, raws, ks + [|raws| - 1], edges + EdgeFor(lang, rule, b, raws[|raws| - 1]))
  {
    var n := |raws| - 1;
    var last := EdgeFor(lang, rule, b, raws[n]);
    assert forall k :: 0 <= k < n ==> raws[..n][k] == raws[k];
    forall k: nat | k < n && EdgeFor(lang, rule, b, raws[k]) != [] ensures k in ks {
      assert EdgeFor(lang, rule, b, raws[..n][k]) != [];
    }
    if last != [] {
      assert |last| == 1;
      AddsLast(ks, n);
      forall x | 0 <= x < |ks + [n]| ensures EdgeFor(lang, rule, b, raws[(ks + [n])[x]]) == [(edges + last)[x]] {
      }
    }
  }

  lemma AddsLast(ks: seq<nat>, n: nat)
    requires (forall x, y :: 0 <= x < y < |ks| ==> ks[x] < ks[y]) && forall x :: 0 <= x < |ks| ==> ks[x] < n
    ensures forall x, y :: 0 <= x < y < |ks + [n]| ==> (ks + [n])[x] < (ks + [n])[y]
    ensures forall k :: k in ks + [n] <==> k in ks || k == n
  {
  }

  lemma {:induction false} ObjectsKept(lang: Language, rule: Rule, b: Binding, raws: seq<string>) returns (ks: seq<nat>)
    ensures Kept(lang, rule, b, raws, ks, EdgesFor(lang, rule, b, raws))
  {
    ks := [];
    if raws != [] {
      var n := |raws| - 1;
      ks := ObjectsKept(lang, rule, b, raws[..n]);
      OneMoreObject(lang, rule, b, raws, ks, EdgesFor(lang, rule, b, raws[..n]));
      if EdgeFor(lang, rule, b, raws[n]) != [] {
        ks := ks + [n];
      }
    }
  }

  lemma ClauseKept(lang: Language, clauses: seq<string>, i: nat) returns (ks: seq<nat>)
    requires i < |clauses|
    ensures var edges := ClauseEdges(lang, clauses, i);
            && |ks| == |edges| && (forall x, y :: 0 <= x < y < |ks| ==> ks[x] < ks[y])
            && (forall x :: 0 <= x < |ks| ==> EdgeAt(lang, clauses, i, ks[x]) == [edges[x]])
            && forall k: nat :: EdgeAt(lang, clauses, i, k) != [] ==> k in ks
  {
    var m := FirstMatch(lang, clauses[i], 0);
    ks := [];
    if m.Matched? {
      ks := ObjectsKept(lang, m.rule, BindingOf(lang, clauses[i], Carried(lang, clauses, i)), lang.objects(m.capture.target));
    }
  }

  lemma OneMoreClause(lang: Language, clauses: seq<string>, n: nat, before: seq<(nat, nat)>) returns (at: seq<(nat, nat)>)
    requires n < |clauses| && Placed(lang, clauses, n, before, EdgesUpTo(lang, clauses, n))
    ensures Placed(lang, clauses, n + 1, at, EdgesUpTo(lang, clauses, n + 1))
    ensures before <= at && forall x :: |before| <= x < |at| ==> at[x].0 == n
  {
    var ks := ClauseKept(lang, clauses, n);
    var more := seq(|ks|, x requires 0 <= x < |ks| => (n, ks[x]));
    at := before + more;
    LaterOnes(before, ks, more, n);
    forall x | 0 <= x < |at| ensures at[x].0 < n + 1
                                     && EdgeAt(lang, clauses, at[x].0, at[x].1) == [EdgesUpTo(lang, clauses, n + 1)[x]] {
    }
    forall i: nat, k: nat | i < n + 1 && EdgeAt(lang, clauses, i, k) != [] ensures (i, k) in at {
      if i < n {
        assert (i, k) in before;
      } else {
        assert k in ks;
      }
    }
  }

  lemma LaterOnes(before: seq<(nat, nat)>, ks: seq<nat>, more: seq<(nat, nat)>, n: nat)
    requires InOrder(before) && forall x :: 0 <= x < |before| ==> before[x].0 < n
    requires forall x, y :: 0 <= x < y < |ks| ==> ks[x] < ks[y]
    requires |more| == |ks| && forall x :: 0 <= x < |ks| ==> more[x] == (n, ks[x])
    ensures InOrder(before + more)
    ensures forall k :: k in ks ==> (n, k) in before + more
  {
    forall k | k in ks ensures (n, k) in before + more {
      var x :| 0 <= x < |ks| && ks[x] == k;
      assert more[x] == (n, k);
    }
  }

  lemma {:induction false} ClausesPlaced(lang: Language, clauses: seq<string>, n: nat) returns (at: seq<(nat, nat)>)
    requires n <= |clauses|
    ensures Placed(lang, clauses, n, at, EdgesUpTo(lang, clauses, n))
  {
    at := [];
    if n > 0 {
      var before := ClausesPlaced(lang, clauses, n - 1);
      at := OneMoreClause(lang, clauses, n - 1, before);
    }
  }

  // The relations of a text are exactly what the objects of its first `done` clauses yield, clause by clause and
  // object by object; and done is all clauses, or the first number of clauses that yield as many as allowed.
  lemma RelationsExactly(lang: Language, text: string) returns (done: nat, at: seq<(nat, nat)>)
    ensures var clauses, edges := lang.clauses(text), Relations(lang, text);
            && done <= |clauses| && |at| == |edges| && InOrder(at)
            && (forall x :: 0 <= x < |at| ==> at[x].0 < done && Yields(lang, clauses, at[x].0, at[x].1, edges[x]))
            && (forall i: nat, k: nat, e :: i < done && Yields(lang, clauses, i, k, e) ==>
                  exists x :: 0 <= x < |at| && at[x] == (i, k) && edges[x] == e)
            && (done == |clauses| || |edges| >= 24)
            && forall x :: 23 <= x < |at| ==> at[x].0 == done - 1
  {
    var clauses, edges := lang.clauses(text), Relations(lang, text);
    done := Processed(lang, clauses);
    EdgeCount(lang, text);
    at := [];
    if done > 0 {
      var before := ClausesPlaced(lang, clauses, done - 1);
      at := OneMoreClause(lang, clauses, done - 1, before);
      CapNotYet(lang, clauses);
    }
    PlacedYields(lang, clauses, done, at, edges);
  }

  lemma CapNotYet(lang: Language, clauses: seq<string>)
    requires Processed(lang, clauses) > 0
    ensures |EdgesUpTo(lang, clauses, Processed(lang, clauses) - 1)| < 24
  {
    var n := Processed(lang, clauses) - 1;
    assert n > 0 ==> !CapReached(lang, clauses)(n);
  }

  lemma PlacedYields(lang: Language, clauses: seq<string>, n: nat, at: seq<(nat, nat)>, edges: seq<Edge>)
    requires Placed(lang, clauses, n, at, edges)
    ensures forall x :: 0 <= x < |at| ==> Yields(lang, clauses, at[x].0, at[x].1, edges[x])
    ensures forall i: nat, k: nat, e :: i < n && Yields(lang, clauses, i, k, e) ==>
              exists x :: 0 <= x < |at| && at[x] == (i, k) && edges[x] == e
  {
    forall x | 0 <= x < |at| ensures Yields(lang, clauses, at[x].0, at[x].1, edges[x]) {
      YieldsIs(lang, clauses, at[x].0, at[x].1, edges[x]);
    }
    forall i: nat, k: nat, e | i < n && Yields(lang, clauses, i, k, e)
      ensures exists x :: 0 <= x < |at| && at[x] == (i, k) && edges[x] == e
    {
      YieldsIs(lang, clauses, i, k, e);
      var x :| 0 <= x < |at| && at[x] == (i, k);
    }
  }

  // ----- Names -----

  // A word starts at i.
  predicate WordStart(s: string, i: nat)
    requires i < |s|
  {
    !IsSpace(s[i]) && (i == 0 || IsSpace(s[i - 1]))
  }

  // The words of a text are counted where they start.
  lemma WordsStart(s: string) returns (at: seq<nat>)
    ensures |at| == WordCount(s, false)
    ensures forall x, y :: 0 <= x < y < |at| ==> at[x] < at[y]
    ensures forall i: nat :: i in at <==> i < |s| && WordStart(s, i)
  {
    at := StartsAfter(s, false);
    assert forall i: nat :: i < |s| ==> (Begins(s, false, i) <==> WordStart(s, i));
  }

  // The same behind a text that ends within a word, or does not.
  predicate Begins(s: string, inWord: bool, i: nat) {
    i < |s| && !IsSpace(s[i]) && if i == 0 then !inWord else IsSpace(s[i - 1])
  }

  lemma BeginsNext(s: string, inWord: bool, i: nat)
    requires s != "" && i > 0
    ensures Begins(s, inWord, i) <==> Begins(s[1..], !IsSpace(s[0]), i - 1)
  {
  }

  lemma {:induction false} StartsAfter(s: string, inWord: bool) returns (at: seq<nat>)
    ensures |at| == WordCount(s, inWord)
    ensures forall x, y :: 0 <= x < y < |at| ==> at[x] < at[y]
    ensures forall i: nat :: i in at <==> Begins(s, inWord, i)
  {
    at := [];
    if s != "" {
      var rest := StartsAfter(s[1..], !IsSpace(s[0]));
      var shifted := Shifted(rest);
      at := if Begins(s, inWord, 0) then [0] + shifted else shifted;
      forall i: nat ensures i in at <==> Begins(s, inWord, i) {
        if i > 0 {
          BeginsNext(s, inWord, i);
          assert i in at <==> i in shifted;
        }
      }
    }
  }

  lemma Shifted(rest: seq<nat>) returns (shifted: seq<nat>)
    requires forall x, y :: 0 <= x < y < |rest| ==> rest[x] < rest[y]
    ensures |shifted| == |rest| && forall x, y :: 0 <= x < y < |shifted| ==> shifted[x] < shifted[y]
    ensures 0 !in shifted && forall i: nat :: i > 0 ==> (i in shifted <==> i - 1 in rest)
  {
    shifted := seq(|rest|, x requires 0 <= x < |rest| => rest[x] + 1);
    forall i: nat | i > 0 ensures i in shifted <==> i - 1 in rest {
      if i - 1 in rest {
        var x :| 0 <= x < |rest| && rest[x] == i - 1;
        assert shifted[x] == i;
      }
    }
  }

  // A name is usable when it is short, of at most four words, no stop word and neither a secret nor personal data.
  lemma UsableIff(lang: Language, name: string) returns (starts: seq<nat>)
    ensures forall x, y :: 0 <= x < y < |starts| ==> starts[x] < starts[y]
    ensures forall i: nat :: i in starts <==> i < |name| && WordStart(name, i)
    ensures Usable(lang, name) <==>
              && 0 < |name| <= 80 && |starts| <= 4
              && name !in lang.stopwords && !lang.secret(name) && !lang.pii(name)
  {
    starts := WordsStart(name);
  }

  // What a name looks like decides its kind before its role does.
  predicate Plain(lang: Language, name: string) {
    && !("#" <= name) && !lang.url(name) && name !in lang.providers
    && forall suffix :: suffix in {".git", "-repo", " repo"} ==> !EndsWith(name, suffix)
  }

  lemma KindOfShape(lang: Language, name: string, role: Role, rel: string)
    ensures name != "" && name[0] == '#' ==> InferKind(lang, name, role, rel) == "channel"
    ensures !("#" <= name) && lang.url(name) ==> InferKind(lang, name, role, rel) == "url"
    ensures !("#" <= name) && !lang.url(name) && name in lang.providers ==> InferKind(lang, name, role, rel) == "provider"
    ensures !("#" <= name) && !lang.url(name) && name !in lang.providers && !Plain(lang, name) ==>
              InferKind(lang, name, role, rel) == "repo"
  {
  }

  lemma KindOfRole(lang: Language, name: string, rel: string)
    requires Plain(lang, name) && rel in SEMANTIC_RELATIONS
    ensures InferKind(lang, name, Subject, rel) == if rel == "source_of_truth_for" then "source_of_truth" else "project"
    ensures InferKind(lang, name, Object, rel) ==
              if rel in {"uses_provider", "fallback_provider"} then "provider"
              else if rel in {"deploys_to", "routes_to", "sensitive_write"} then "service"
              else "topic"
  {
  }
}
