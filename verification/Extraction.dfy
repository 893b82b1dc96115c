/** Typed relations from text: a rule table run clause by clause, with a subject carried over between clauses. */
module Extraction {
  import opened Seqs
  import opened Text

  const SEMANTIC_RELATIONS := [
    "owns", "routes_to", "separate_from", "uses_provider", "fallback_provider", "deploys_to",
    "source_of_truth_for", "sensitive_write", "depends_on", "supersedes"]

  const MAX_NAME_CHARS := 80
  const MAX_NAME_WORDS := 4
  const MAX_RELATIONS_PER_MEMORY := 24

  datatype Rule = Rule(rel: string, name: string)

  const RULES := [
    Rule("supersedes", "supersedes:es-replace"),
    Rule("supersedes", "supersedes:en"),
    Rule("supersedes", "supersedes:es"),
    Rule("source_of_truth_for", "source_of_truth:en"),
    Rule("source_of_truth_for", "source_of_truth:es"),
    Rule("source_of_truth_for", "source_of_truth:es-bare"),
    Rule("separate_from", "separate_from:en-mix"),
    Rule("separate_from", "separate_from:es-mix"),
    Rule("separate_from", "separate_from:generic"),
    Rule("sensitive_write", "sensitive_write:en"),
    Rule("sensitive_write", "sensitive_write:es"),
    Rule("deploys_to", "deploys_to:en"),
    Rule("deploys_to", "deploys_to:live"),
    Rule("deploys_to", "deploys_to:es-live"),
    Rule("fallback_provider", "fallback_provider:en-subj"),
    Rule("fallback_provider", "fallback_provider:nearest"),
    Rule("routes_to", "routes_to"),
    Rule("owns", "owns:en"),
    Rule("owns", "owns:es"),
    Rule("depends_on", "depends_on:en"),
    Rule("depends_on", "depends_on:es"),
    Rule("uses_provider", "uses_provider:en"),
    Rule("uses_provider", "uses_provider:es")]

  // What a regular expression captures; a rule without a subject group captures no subject.
  datatype Capture = Capture(subject: Option<string>, target: string)

  // The word tables, and the regular expressions as functions: clause splitting, rule matching, object
  // splitting, name canonicalisation, the secret and PII patterns, the URL shape, the scans of the
  // fallback, and the lower-casing alias table.
  datatype Language = Language(
    rules: seq<Rule>,
    stopwords: set<string>,
    providers: set<string>,
    clauses: string -> seq<string>,
    matches: (Rule, string) -> Option<Capture>,
    objects: string -> seq<string>,
    canonical: string -> string,
    secret: string -> bool,
    pii: string -> bool,
    url: string -> bool,
    channels: string -> seq<string>,
    urlTokens: string -> seq<string>,
    words: string -> seq<string>,
    alias: string -> string)

  // len(name.split())
  function WordCount(s: string, inWord: bool): nat {
    if s == "" then 0
    else if IsSpace(s[0]) then WordCount(s[1..], false)
    else (if inWord then 0 else 1) + WordCount(s[1..], true)
  }

  predicate Usable(lang: Language, name: string) {
    && name != "" && |name| <= MAX_NAME_CHARS
    && WordCount(name, false) <= MAX_NAME_WORDS
    && name !in lang.stopwords
    && !lang.secret(name) && !lang.pii(name)
  }

  predicate EndsWith(s: string, suffix: string) {
    |suffix| <= |s| && s[|s| - |suffix|..] == suffix
  }

  datatype Role = Subject | Object

  const ENTITY_KINDS := {
    "project", "channel", "repo", "url", "provider", "service", "workflow", "decision", "source_of_truth", "module",
    "topic"}

  // The kind by surface shape, or else by the role in the relation; always one of the fixed kinds.
  function InferKind(lang: Language, name: string, role: Role, rel: string): (kind: string)
    ensures kind in ENTITY_KINDS
  {
    if "#" <= name then "channel"
    else if lang.url(name) then "url"
    else if name in lang.providers then "provider"
    else if EndsWith(name, ".git") || EndsWith(name, "-repo") || EndsWith(name, " repo") then "repo"
    else if rel in {"uses_provider", "fallback_provider"} && role.Object? then "provider"
    else if rel == "deploys_to" && role.Object? then "service"
    else if rel == "routes_to" && role.Object? then "service"
    else if rel == "source_of_truth_for" then (if role.Subject? then "source_of_truth" else "topic")
    else if rel == "sensitive_write" then (if role.Object? then "service" else "project")
    else if role.Subject? then "project"
    else "topic"
  }

  datatype Edge = Edge(
    rel: string, subject: string, subjectKind: string, target: string, targetKind: string, rule: string)

  // ----- What the extraction means -----

  datatype Match = NoMatch | Matched(rule: Rule, capture: Capture)

  // The first rule from r on that matches the clause.
  function FirstMatch(lang: Language, clause: string, r: nat): (m: Match)
    requires r <= |lang.rules|
    ensures m.Matched? ==> m.rule in lang.rules && lang.matches(m.rule, clause) == Some(m.capture)
    decreases |lang.rules| - r
  {
    if r == |lang.rules| then NoMatch
    else
      match lang.matches(lang.rules[r], clause)
      case Some(c) => Matched(lang.rules[r], c)
      case None => FirstMatch(lang, clause, r + 1)
  }

  // The usable subject that the first match of a clause captures, if any.
  function Named(lang: Language, clause: string): (name: Option<string>)
    ensures name.Some? ==> Usable(lang, name.value)
  {
    var m := FirstMatch(lang, clause, 0);
    if m.Matched? && m.capture.subject.Some? && m.capture.subject.value != ""
       && Usable(lang, lang.canonical(m.capture.subject.value))
    then Some(lang.canonical(m.capture.subject.value)) else None
  }

  // The subject carried into clause i: that of the nearest earlier clause that names one.
  function Carried(lang: Language, clauses: seq<string>, i: nat): (name: Option<string>)
    requires i <= |clauses|
    ensures name.Some? ==> Usable(lang, name.value)
  {
    if i == 0 then None
    else if Named(lang, clauses[i - 1]).Some? then Named(lang, clauses[i - 1])
    else Carried(lang, clauses, i - 1)
  }

  // The subject a clause's edges get: none at all, each object itself, or a name.
  datatype Binding = Unbound | Itself | Bound(name: string)

  function BindingOf(lang: Language, clause: string, carried: Option<string>): Binding {
    var m := FirstMatch(lang, clause, 0);
    if m.NoMatch? then Unbound
    else if Named(lang, clause).Some? then Bound(Named(lang, clause).value)
    else if m.capture.subject.Some? then Unbound
    else if carried.Some? then Bound(carried.value)
    else if m.rule.rel == "sensitive_write" then Itself
    else Unbound
  }

  function EdgeFor(lang: Language, rule: Rule, b: Binding, raw: string): seq<Edge> {
    var target := lang.canonical(raw);
    if b.Unbound? || !Usable(lang, target) then []
    else
      var subject := if b.Bound? then b.name else target;
      if subject == target && rule.rel != "sensitive_write" then []
      else [Edge(rule.rel, subject, InferKind(lang, subject, Subject, rule.rel),
                 target, InferKind(lang, target, Object, rule.rel), rule.name)]
  }

  function EdgesFor(lang: Language, rule: Rule, b: Binding, raws: seq<string>): seq<Edge> {
    if raws == [] then []
    else EdgesFor(lang, rule, b, raws[..|raws| - 1]) + EdgeFor(lang, rule, b, raws[|raws| - 1])
  }

  function ClauseEdges(lang: Language, clauses: seq<string>, i: nat): seq<Edge>
    requires i < |clauses|
  {
    var m := FirstMatch(lang, clauses[i], 0);
    if m.NoMatch? then []
    else
      EdgesFor(lang, m.rule, BindingOf(lang, clauses[i], Carried(lang, clauses, i)),
               lang.objects(m.capture.target))
  }

  function EdgesUpTo(lang: Language, clauses: seq<string>, n: nat): seq<Edge>
    requires n <= |clauses|
  {
    if n == 0 then [] else EdgesUpTo(lang, clauses, n - 1) + ClauseEdges(lang, clauses, n - 1)
  }

  // The cap is reached after n clauses.
  function CapReached(lang: Language, clauses: seq<string>): nat -> bool {
    (n: nat) => n <= |clauses| && |EdgesUpTo(lang, clauses, n)| >= MAX_RELATIONS_PER_MEMORY
  }

  // The first position after i at which the predicate holds; n when there is none.
  function FirstAfter(reached: nat -> bool, i: nat, n: nat): (k: nat)
    requires i <= n
    ensures i <= k <= n && (k < n ==> reached(k))
    ensures forall j: nat :: i < j < k ==> !reached(j)
    decreases n - i
  {
    if i == n then n
    else if reached(i + 1) then i + 1
    else FirstAfter(reached, i + 1, n)
  }

  // How many clauses are processed: up to the first after which the cap is reached.
  function Processed(lang: Language, clauses: seq<string>): (n: nat)
    ensures n <= |clauses|
  {
    FirstAfter(CapReached(lang, clauses), 0, |clauses|)
  }

  function Relations(lang: Language, text: string): seq<Edge> {
    var clauses := lang.clauses(text);
    EdgesUpTo(lang, clauses, Processed(lang, clauses))
  }

  // ----- The loops -----

  method ExtractRelations(lang: Language, text: string) returns (edges: seq<Edge>)
    ensures edges == Relations(lang, text)
  {
    var clauses := lang.clauses(text);
    var lastSubject: Option<string> := None;
    edges := [];
    var i := 0;
    while i < |clauses|
      invariant i <= |clauses| && edges == EdgesUpTo(lang, clauses, i)
      invariant lastSubject == Carried(lang, clauses, i)
      invariant Processed(lang, clauses) == FirstAfter(CapReached(lang, clauses), i, |clauses|)
    {
      var found;
      found, lastSubject := ExtractClause(lang, clauses[i], lastSubject);
      edges := edges + found;
      i := i + 1;
      if |edges| >= MAX_RELATIONS_PER_MEMORY {
        break;
      }
    }
  }

  // Tries the rules in order; the first match decides the clause.
  method ExtractClause(lang: Language, clause: string, last: Option<string>)
    returns (edges: seq<Edge>, lastSubject: Option<string>)
    ensures var m := FirstMatch(lang, clause, 0);
            edges == if m.NoMatch? then []
                     else EdgesFor(lang, m.rule, BindingOf(lang, clause, last), lang.objects(m.capture.target))
    ensures lastSubject == if Named(lang, clause).Some? then Named(lang, clause) else last
  {
    lastSubject := last;
    for r := 0 to |lang.rules|
      invariant FirstMatch(lang, clause, 0) == FirstMatch(lang, clause, r)
      invariant lastSubject == last
    {
      var m := lang.matches(lang.rules[r], clause);
      if m.None? {
        continue;
      }
      var rawSubject := m.value.subject;
      var subject := if rawSubject.Some? && rawSubject.value != "" then Some(lang.canonical(rawSubject.value)) else None;
      ghost var binding := BindingOf(lang, clause, last);
      if subject.Some? && Usable(lang, subject.value) {
        lastSubject := subject;
      } else if rawSubject.None? {
        if last.None? {
          if lang.rules[r].rel != "sensitive_write" {
            NoEdges(lang, lang.rules[r], lang.objects(m.value.target));
            return [], lastSubject;
          }
        } else {
          subject := last;
        }
      } else {
        NoEdges(lang, lang.rules[r], lang.objects(m.value.target));
        return [], lastSubject;
      }
      edges := CollectEdges(lang, lang.rules[r], subject, lang.objects(m.value.target));
      return edges, lastSubject;
    }
    edges := [];
  }

  lemma {:induction false} NoEdges(lang: Language, rule: Rule, raws: seq<string>)
    ensures EdgesFor(lang, rule, Unbound, raws) == []
  {
    if raws != [] {
      NoEdges(lang, rule, raws[..|raws| - 1]);
    }
  }

  method CollectEdges(lang: Language, rule: Rule, subject: Option<string>, raws: seq<string>) returns (edges: seq<Edge>)
    ensures edges == EdgesFor(lang, rule, if subject.Some? then Bound(subject.value) else Itself, raws)
  {
    edges := [];
    for k := 0 to |raws|
      invariant edges == EdgesFor(lang, rule, if subject.Some? then Bound(subject.value) else Itself, raws[..k])
    {
      assert raws[..k + 1][..k] == raws[..k];
      var target := lang.canonical(raws[k]);
      if Usable(lang, target) {
        var name := if subject.None? then target else subject.value;
        if name != target || rule.rel == "sensitive_write" {
          edges := edges + [Edge(rule.rel, name, InferKind(lang, name, Subject, rule.rel),
                                 target, InferKind(lang, target, Object, rule.rel), rule.name)];
        }
      }
    }
    assert raws[..|raws|] == raws;
  }

  // ----- Nearest-subject binding -----

  // The carried subject is the one named by the nearest earlier clause that names one.
  lemma {:induction false} CarriedIsNearest(lang: Language, clauses: seq<string>, i: nat)
    requires i <= |clauses|
    ensures var carried := Carried(lang, clauses, i);
            if carried.None? then forall j: nat :: j < i ==> Named(lang, clauses[j]).None?
            else exists j: nat :: j < i && Named(lang, clauses[j]) == carried
                                  && forall k: nat :: j < k < i ==> Named(lang, clauses[k]).None?
  {
    if i > 0 && Named(lang, clauses[i - 1]).None? {
      CarriedIsNearest(lang, clauses, i - 1);
    }
  }

  lemma {:induction false} EdgesForLaws(lang: Language, rule: Rule, b: Binding, raws: seq<string>, e: Edge)
    requires e in EdgesFor(lang, rule, b, raws)
    ensures !b.Unbound? && (b.Bound? ==> e.subject == b.name) && (b.Itself? ==> e.subject == e.target)
    ensures e.rel == rule.rel && e.rule == rule.name && Usable(lang, e.target)
    ensures e.subject == e.target ==> e.rel == "sensitive_write"
    ensures exists raw :: raw in raws && e.target == lang.canonical(raw)
  {
    var init, last := raws[..|raws| - 1], raws[|raws| - 1];
    if e in EdgesFor(lang, rule, b, init) {
      EdgesForLaws(lang, rule, b, init, e);
    } else {
      assert e in EdgeFor(lang, rule, b, last);
    }
  }

  // Where an edge comes from: the first match of a clause, and the subject that clause binds to.
  ghost predicate ComesFrom(lang: Language, clauses: seq<string>, i: nat, e: Edge) {
    i < |clauses| &&
    var m, carried := FirstMatch(lang, clauses[i], 0), Carried(lang, clauses, i);
    && m.Matched? && e.rel == m.rule.rel && e.rule == m.rule.name
    && (exists raw :: raw in lang.objects(m.capture.target) && e.target == lang.canonical(raw))
    && if m.capture.subject.Some? then e.subject == lang.canonical(m.capture.subject.value)
       else if carried.Some? then e.subject == carried.value
       else e.rel == "sensitive_write" && e.subject == e.target
  }

  lemma {:induction false} EdgeOrigin(lang: Language, clauses: seq<string>, n: nat, e: Edge)
    requires n <= |clauses| && e in EdgesUpTo(lang, clauses, n)
    ensures exists i: nat :: i < n && ComesFrom(lang, clauses, i, e)
    ensures Usable(lang, e.subject) && Usable(lang, e.target)
    ensures e.subject == e.target ==> e.rel == "sensitive_write"
  {
    if e in EdgesUpTo(lang, clauses, n - 1) {
      EdgeOrigin(lang, clauses, n - 1, e);
    } else {
      var i := n - 1;
      var m := FirstMatch(lang, clauses[i], 0);
      var b := BindingOf(lang, clauses[i], Carried(lang, clauses, i));
      EdgesForLaws(lang, m.rule, b, lang.objects(m.capture.target), e);
      assert ComesFrom(lang, clauses, i, e);
    }
  }

  // Every extracted edge comes from the first matching rule of its clause and binds to the nearest
  // subject; its endpoints are usable, and only sensitive writes loop.
  lemma RelationsLaws(lang: Language, text: string, e: Edge)
    requires e in Relations(lang, text)
    ensures exists i: nat :: ComesFrom(lang, lang.clauses(text), i, e)
    ensures Usable(lang, e.subject) && Usable(lang, e.target)
    ensures e.subject == e.target ==> e.rel == "sensitive_write"
  {
    var clauses := lang.clauses(text);
    EdgeOrigin(lang, clauses, Processed(lang, clauses), e);
  }

  // A clause before any named subject gives only self-flags of sensitive writes.
  lemma WithoutSubject(lang: Language, clauses: seq<string>, i: nat, e: Edge)
    requires i < |clauses| && e in ClauseEdges(lang, clauses, i)
    requires forall j: nat :: j <= i ==> Named(lang, clauses[j]).None?
    ensures e.rel == "sensitive_write" && e.subject == e.target
  {
    CarriedIsNearest(lang, clauses, i);
    var m := FirstMatch(lang, clauses[i], 0);
    EdgesForLaws(lang, m.rule, BindingOf(lang, clauses[i], Carried(lang, clauses, i)),
                 lang.objects(m.capture.target), e);
  }

  lemma {:induction false} AtMostPerObject(lang: Language, rule: Rule, b: Binding, raws: seq<string>)
    ensures |EdgesFor(lang, rule, b, raws)| <= |raws|
  {
    if raws != [] {
      AtMostPerObject(lang, rule, b, raws[..|raws| - 1]);
    }
  }

  // The objects of a clause's first match.
  function ObjectCount(lang: Language, clause: string): nat {
    var m := FirstMatch(lang, clause, 0);
    if m.NoMatch? then 0 else |lang.objects(m.capture.target)|
  }

  lemma ClauseAtMost(lang: Language, clauses: seq<string>, i: nat)
    requires i < |clauses|
    ensures |ClauseEdges(lang, clauses, i)| <= ObjectCount(lang, clauses[i])
  {
    var m := FirstMatch(lang, clauses[i], 0);
    if m.Matched? {
      AtMostPerObject(lang, m.rule, BindingOf(lang, clauses[i], Carried(lang, clauses, i)),
                      lang.objects(m.capture.target));
    }
  }

  lemma OneMoreClause(lang: Language, clauses: seq<string>, n: nat)
    requires 0 < n <= |clauses| && (n - 1 > 0 ==> |EdgesUpTo(lang, clauses, n - 1)| < MAX_RELATIONS_PER_MEMORY)
    ensures |EdgesUpTo(lang, clauses, n)| <= MAX_RELATIONS_PER_MEMORY - 1 + ObjectCount(lang, clauses[n - 1])
  {
    ClauseAtMost(lang, clauses, n - 1);
  }

  // The cap is checked after each clause, so the last clause can exceed it, but only by its own objects.
  lemma EdgeCount(lang: Language, text: string)
    ensures var clauses := lang.clauses(text);
            var n := Processed(lang, clauses);
            |Relations(lang, text)| <=
            if n == 0 then 0 else MAX_RELATIONS_PER_MEMORY - 1 + ObjectCount(lang, clauses[n - 1])
    ensures var clauses := lang.clauses(text);
            Processed(lang, clauses) < |clauses| ==> |Relations(lang, text)| >= MAX_RELATIONS_PER_MEMORY
  {
    var clauses := lang.clauses(text);
    var n := Processed(lang, clauses);
    if n > 0 {
      assert n - 1 > 0 ==> !CapReached(lang, clauses)(n - 1);
      OneMoreClause(lang, clauses, n);
    }
  }

  lemma RulesInVocabulary(r: nat)
    requires r < |RULES|
    ensures RULES[r].rel in SEMANTIC_RELATIONS
  {
  }

  // The rule table only produces relations of the vocabulary.
  lemma RelationsInVocabulary(lang: Language, text: string, e: Edge)
    requires lang.rules == RULES && e in Relations(lang, text)
    ensures e.rel in SEMANTIC_RELATIONS
  {
    RelationsLaws(lang, text, e);
    var i: nat :| ComesFrom(lang, lang.clauses(text), i, e);
    var rule := FirstMatch(lang, lang.clauses(text)[i], 0).rule;
    var r :| 0 <= r < |RULES| && RULES[r] == rule;
    RulesInVocabulary(r);
  }
}
